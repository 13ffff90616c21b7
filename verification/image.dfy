/** Turns the whitespace-separated tokens of a program text into the
    initial memory image: token `i` (for `i < Size`), with every leading
    "0x" removed, is read as a hexadecimal byte into cell `i`. */
module Image {
  import opened Wrappers
  import opened Prim
  import opened Memories

  predicate IsHexDigit(ch: char)
  {
    ('0' <= ch <= '9') || ('a' <= ch <= 'f') || ('A' <= ch <= 'F')
  }

  predicate AllHex(s: string)
  {
    forall i :: 0 <= i < |s| ==> IsHexDigit(s[i])
  }

  function DigitValue(ch: char): (d: nat)
    requires IsHexDigit(ch)
    ensures d < 16
  {
    if ch <= '9' then ch as int - '0' as int
    else if ch <= 'F' then ch as int - 'A' as int + 10
    else ch as int - 'a' as int + 10
  }

  /** The number a string of hex digits denotes, most significant first. */
  function HexValue(s: string): nat
    requires AllHex(s)
    decreases |s|
  {
    if |s| == 0 then 0 else 16 * HexValue(s[..|s| - 1]) + DigitValue(s[|s| - 1])
  }

  /** `u8::from_str_radix(s, 16)`: an optional single leading '+', then at
      least one hex digit of either case, denoting at most 255. */
  function ParseHexByte(s: string): (r: Option<Byte>)
    ensures r.Some? ==> 0 < |s| && (AllHex(s) || (1 < |s| && s[0] == '+' && AllHex(s[1..])))
    ensures r.Some? && s[0] == '+' ==> r.value == HexValue(s[1..])
    ensures AllHex(s) ==> (r.Some? <==> 0 < |s| && HexValue(s) < 0x100)
    ensures AllHex(s) && r.Some? ==> r.value == HexValue(s)
  {
    var digits := if |s| > 1 && s[0] == '+' then s[1..] else s;
    if 0 < |digits| && AllHex(digits) && HexValue(digits) < 0x100 then Some(HexValue(digits))
    else None
  }

  /** `s.trim_start_matches("0x")`: drops "0x" from the front as long as
      it is there. */
  function TrimHexPrefix(s: string): (r: string)
    decreases |s|
    ensures |r| <= |s|
    ensures !(2 <= |r| && r[0] == '0' && r[1] == 'x')
  {
    if 2 <= |s| && s[0] == '0' && s[1] == 'x' then TrimHexPrefix(s[2..]) else s
  }

  /** What trimming leaves is a suffix of the token that does not start
      with "0x", and what it drops is "0x" repeated. */
  lemma {:induction false} TrimHexPrefixShape(s: string)
    decreases |s|
    ensures var r := TrimHexPrefix(s);
      && |r| <= |s| && r == s[|s| - |r|..]
      && !(2 <= |r| && r[0] == '0' && r[1] == 'x')
      && (|s| - |r|) % 2 == 0
      && forall i :: 0 <= i < |s| - |r| ==> s[i] == if i % 2 == 0 then '0' else 'x'
  {
    if 2 <= |s| && s[0] == '0' && s[1] == 'x' {
      TrimHexPrefixShape(s[2..]);
      var r := TrimHexPrefix(s);
      assert r == TrimHexPrefix(s[2..]);
      forall i | 2 <= i < |s| - |r|
        ensures s[i] == if i % 2 == 0 then '0' else 'x'
      {
        assert s[i] == s[2..][i - 2];
      }
    }
  }

  /** The byte one program token stands for, if any. */
  function ParseToken(token: string): (r: Option<Byte>)
    // a bare token of one or two hex digits is that number
    ensures 0 < |token| <= 2 && AllHex(token) ==> r == Some(HexValue(token))
    // after the leading "0x"s are stripped, hex digits parse exactly when they
    // denote at most 255, and to that number
    ensures var h := TrimHexPrefix(token);
      AllHex(h) ==> (r.Some? <==> 0 < |h| && HexValue(h) < 0x100) && (r.Some? ==> r.value == HexValue(h))
    // any success is hex digits, or one '+' and hex digits, after the "0x"s
    ensures var h := TrimHexPrefix(token);
      r.Some? ==> 0 < |h| && (AllHex(h) || (1 < |h| && h[0] == '+' && AllHex(h[1..])))
  {
    if 0 < |token| <= 2 && AllHex(token) then
      TwoDigitsFit(token);
      ParseHexByte(TrimHexPrefix(token))
    else
      ParseHexByte(TrimHexPrefix(token))
  }

  /** One or two hex digits denote at most 255 and never begin with "0x". */
  lemma TwoDigitsFit(s: string)
    requires 0 < |s| <= 2 && AllHex(s)
    ensures HexValue(s) < 0x100
    ensures TrimHexPrefix(s) == s
  {
    if |s| == 2 {
      var hi := s[..1];
      assert hi[..0] == [];
      assert HexValue(hi) == DigitValue(s[0]) < 16;
      assert s[..|s| - 1] == hi;
    }
  }

  /** The first position in `[from, n)` whose token does not parse, or `n`. */
  function FirstInvalid(tokens: seq<string>, from: nat, n: nat): (k: nat)
    requires from <= n <= |tokens|
    decreases n - from
    ensures from <= k <= n
    ensures k < n ==> ParseToken(tokens[k]).None?
    ensures forall i :: from <= i < k ==> ParseToken(tokens[i]).Some?
  {
    if from == n then n
    else if ParseToken(tokens[from]).None? then from
    else FirstInvalid(tokens, from + 1, n)
  }

  /** How many tokens the builder looks at: the rest are ignored. */
  function Considered(tokens: seq<string>): nat
  {
    if |tokens| < Size then |tokens| else Size
  }

  /** The memory image a token sequence denotes: the first unparsable
      considered token panics; otherwise each considered token fills its
      cell and the remaining cells stay 0. */
  function ImageOf(tokens: seq<string>): (r: Result<Cells, Panic>)
    ensures r.Ok? <==> forall i :: 0 <= i < Considered(tokens) ==> ParseToken(tokens[i]).Some?
    ensures r.Err? ==>
      && r.error.InvalidToken?
      && r.error.position < Considered(tokens)
      && ParseToken(tokens[r.error.position]).None?
      && forall i :: 0 <= i < r.error.position ==> ParseToken(tokens[i]).Some?
    ensures r.Ok? ==> forall i :: 0 <= i < Size ==>
      r.value[i] == if i < |tokens| then ParseToken(tokens[i]).value else 0
  {
    var n := Considered(tokens);
    var bad := FirstInvalid(tokens, 0, n);
    if bad < n then Err(InvalidToken(bad))
    else
      Ok(seq(Size, i requires 0 <= i < Size =>
        if i < n then (match ParseToken(tokens[i]) case Some(b) => b case None => 0) else 0))
  }

  /** The builder loop of `main`, as `main` writes it. */
  method BuildImage(tokens: seq<string>) returns (r: Result<Cells, Panic>)
    ensures r == ImageOf(tokens)
  {
    var memory := Zeroed();
    var index := 0;
    while index < |tokens|
      invariant index <= |tokens| && index <= Size
      invariant forall i :: 0 <= i < index ==>
        ParseToken(tokens[i]).Some? && memory.mem[i] == ParseToken(tokens[i]).value
      invariant forall i :: index <= i < Size ==> memory.mem[i] == 0
    {
      if index >= Size {
        break;
      }
      var hex := TrimHexPrefix(tokens[index]);
      match ParseHexByte(hex)
      case None =>
        assert FirstInvalid(tokens, 0, Considered(tokens)) == index;
        return Err(InvalidToken(index));
      case Some(b) =>
        memory := memory.(mem := memory.mem[index := b]);
      index := index + 1;
    }
    ImageOfParsed(tokens, memory.mem);
    return Ok(memory.mem);
  }

  /** Cells that hold the parse of every considered token and 0 elsewhere
      are the image. */
  lemma ImageOfParsed(tokens: seq<string>, cells: Cells)
    requires forall i :: 0 <= i < Considered(tokens) ==>
      ParseToken(tokens[i]).Some? && cells[i] == ParseToken(tokens[i]).value
    requires forall i :: Considered(tokens) <= i < Size ==> cells[i] == 0
    ensures ImageOf(tokens) == Ok(cells)
  {
    var r := ImageOf(tokens);
    assert r.Ok?;
    assert r.value == cells;
  }

  // ---------------------------------------------------------------------
  // The inverse direction: writing a memory image out as tokens.

  function HexChar(d: nat): (ch: char)
    requires d < 16
    ensures IsHexDigit(ch) && DigitValue(ch) == d && ch != 'x'
  {
    if d < 10 then (d + '0' as int) as char else (d - 10 + 'a' as int) as char
  }

  /** A byte as a token: "0x" and two lower-case hex digits. */
  function FormatByte(b: Byte): string
  {
    ['0', 'x', HexChar(b / 16), HexChar(b % 16)]
  }

  /** One token per cell. */
  function Listing(mem: Cells): (tokens: seq<string>)
    ensures |tokens| == Size
    ensures forall i :: 0 <= i < Size ==> tokens[i] == FormatByte(mem[i])
  {
    seq(Size, i requires 0 <= i < Size => FormatByte(mem[i]))
  }

  /** Parsing a formatted byte gives the byte back. */
  lemma ParseFormatted(b: Byte)
    ensures ParseToken(FormatByte(b)) == Some(b)
  {
    var t := FormatByte(b);
    var digits := t[2..];
    assert TrimHexPrefix(t) == TrimHexPrefix(digits) == digits;
    var hi := digits[..1];
    assert hi[..0] == [];
    assert HexValue(hi) == b / 16;
    assert digits[..|digits| - 1] == hi;
    assert HexValue(digits) == 16 * (b / 16) + b % 16;
  }

  /** Building the image from a listing of memory gives that memory. */
  lemma ImageOfListing(mem: Cells)
    ensures ImageOf(Listing(mem)) == Ok(mem)
  {
    var tokens := Listing(mem);
    forall i | 0 <= i < Size
      ensures ParseToken(tokens[i]) == Some(mem[i])
    {
      ParseFormatted(mem[i]);
    }
    ImageOfParsed(tokens, mem);
  }

  /** Tokens after the first `Size` have no effect, even unparsable ones. */
  lemma ExtraTokensIgnored(tokens: seq<string>, extra: seq<string>)
    requires |tokens| >= Size
    ensures ImageOf(tokens + extra) == ImageOf(tokens)
  {
    var all := tokens + extra;
    assert Considered(all) == Considered(tokens) == Size;
    assert forall i :: 0 <= i < Size ==> all[i] == tokens[i];
    var r := ImageOf(tokens);
    if r.Ok? {
      ImageOfParsed(all, r.value);
    } else {
      var r' := ImageOf(all);
      assert r'.Err?;
      var p, p' := r.error.position, r'.error.position;
      assert !(p < p') && !(p' < p);
    }
  }

  /** A single leading '+' before the digits is accepted and ignored. */
  lemma PlusSignAccepted(digits: string)
    requires 0 < |digits| && digits[0] != '+'
    ensures ParseHexByte("+" + digits) == ParseHexByte(digits)
  {
    assert ("+" + digits)[1..] == digits;
  }

  /** Any number of "0x" prefixes may stand in front of a token. */
  lemma PrefixesStripped(token: string)
    ensures ParseToken("0x" + token) == ParseToken(token)
  {
    var s := "0x" + token;
    assert s[2..] == token;
  }
}
