/** The 32-character alphabet of CashAddr and Bech32, and the letter case rules around it. */
module Charset {
  import opened Common
  import opened Positional

  const CHARSET := "qpzry9x8gf2tvdw0s3jn54khce6mua7l"

  /** Position of the first c in s, or -1. */
  function IndexOf(s: string, c: char): (r: int)
    ensures -1 <= r < |s|
    ensures r >= 0 ==> s[r] == c
    ensures r == -1 <==> c !in s
    ensures forall i :: 0 <= i < r ==> s[i] != c
  {
    if s == "" then -1
    else if s[0] == c then 0
    else
      var r := IndexOf(s[1..], c);
      assert c in s ==> c in s[1..];
      assert forall i :: 1 <= i < |s| ==> s[i] == s[1..][i - 1];
      if r < 0 then -1 else r + 1
  }

  /** The reverse table: the symbol a character stands for, -1 for all others. */
  function Reverse(c: char): (r: int)
    ensures -1 <= r < 32
  {
    ReverseFrom(c, 0)
  }

  function ReverseFrom(c: char, i: nat): (r: int)
    requires i <= 32
    ensures -1 <= r < 32
    decreases 32 - i
  {
    if i == 32 then -1 else if CHARSET[i] == c then i else ReverseFrom(c, i + 1)
  }

  lemma {:induction false} ReverseFromIs(c: char, i: nat)
    requires i <= 32
    ensures ReverseFrom(c, i) == -1 || (i <= ReverseFrom(c, i) && CHARSET[ReverseFrom(c, i)] == c)
    ensures forall j :: i <= j < 32 && CHARSET[j] == c ==> i <= ReverseFrom(c, i) <= j
    decreases 32 - i
  {
    if i < 32 && CHARSET[i] != c {
      ReverseFromIs(c, i + 1);
    }
  }

  lemma {:induction false} CharsetDistinct(i: nat, j: nat)
    requires i < j < 32
    ensures CHARSET[i] != CHARSET[j]
  {
  }

  lemma {:induction false} ReverseOfSymbol(i: nat)
    requires i < 32
    ensures Reverse(CHARSET[i]) == i
  {
    var r := Reverse(CHARSET[i]);
    ReverseFromIs(CHARSET[i], 0);
    if r < i {
      CharsetDistinct(r, i);
    }
  }

  /** Symbols are lower-case ASCII and none is a separator. */
  lemma {:induction false} SymbolIsPlain(i: nat)
    requires i < 32
    ensures CHARSET[i] != '1' && CHARSET[i] != ':' && CHARSET[i] < 128 as char
    ensures ToLowerChar(CHARSET[i]) == CHARSET[i]
  {
  }

  predicate IsSymbols(ds: seq<int>) {
    IsDigits(32, ds)
  }

  function Spell(ds: seq<int>): (s: string)
    requires IsSymbols(ds)
    ensures |s| == |ds|
  {
    seq(|ds|, i requires 0 <= i < |ds| => CHARSET[ds[i]])
  }

  function Symbols(s: string): (r: Option<seq<int>>)
    ensures r.Some? ==> IsSymbols(r.value) && |r.value| == |s|
  {
    if exists i :: 0 <= i < |s| && Reverse(s[i]) == -1 then None
    else Some(seq(|s|, i requires 0 <= i < |s| => Reverse(s[i])))
  }

  lemma {:induction false} SymbolsOfSpelled(ds: seq<int>)
    requires IsSymbols(ds)
    ensures Symbols(Spell(ds)) == Some(ds)
  {
    forall i | 0 <= i < |ds| ensures Reverse(Spell(ds)[i]) == ds[i] {
      ReverseOfSymbol(ds[i]);
    }
    assert Symbols(Spell(ds)).value == ds;
  }

  lemma {:induction false} SpelledSymbols(s: string)
    requires Symbols(s).Some?
    ensures Spell(Symbols(s).value) == s
  {
    var ds := Symbols(s).value;
    forall i | 0 <= i < |s| ensures Spell(ds)[i] == s[i] {
      ReverseFromIs(s[i], 0);
    }
  }

  /**
   * Lower and upper case of one character. Besides ASCII only the characters that map into ASCII
   * matter here: dotted capital I, the Kelvin sign, dotless i and long s.
   */
  function ToLowerChar(c: char): char {
    if 'A' <= c <= 'Z' then (c as int + 32) as char
    else if c == '\U{130}' then 'i'
    else if c == '\U{212a}' then 'k'
    else c
  }

  function ToUpperChar(c: char): char {
    if 'a' <= c <= 'z' then (c as int - 32) as char
    else if c == '\U{131}' then 'I'
    else if c == '\U{17f}' then 'S'
    else c
  }

  /** unicode.ToLower and unicode.ToUpper on all other characters; nothing depends on which functions they are. */
  datatype Folding = Folding(lower: char -> char, upper: char -> char)

  function Lowered(f: Folding, c: char): char {
    if c < 128 as char || c == '\U{130}' || c == '\U{212a}' then ToLowerChar(c) else f.lower(c)
  }

  function Uppered(f: Folding, c: char): char {
    if c < 128 as char || c == '\U{131}' || c == '\U{17f}' then ToUpperChar(c) else f.upper(c)
  }

  function LowerOf(f: Folding, s: string): (r: string)
    ensures |r| == |s|
  {
    seq(|s|, i requires 0 <= i < |s| => Lowered(f, s[i]))
  }

  function UpperOf(f: Folding, s: string): (r: string)
    ensures |r| == |s|
  {
    seq(|s|, i requires 0 <= i < |s| => Uppered(f, s[i]))
  }

  /** Go's len: the bytes of the text in UTF-8. */
  function ByteLength(s: string): (n: nat)
    ensures n >= |s|
  {
    if s == "" then 0
    else
      var c := s[|s| - 1];
      ByteLength(s[..|s| - 1])
      + if c < 0x80 as char then 1 else if c < 0x800 as char then 2 else if c < 0x1_0000 as char then 3 else 4
  }

  lemma {:induction false} ByteLengthAppend(s: string, t: string)
    ensures ByteLength(s + t) == ByteLength(s) + ByteLength(t)
  {
    if t == "" {
      assert s + t == s;
    } else {
      assert (s + t)[..|s + t| - 1] == s + t[..|t| - 1];
      ByteLengthAppend(s, t[..|t| - 1]);
    }
  }

  predicate IsAscii(s: string) {
    forall i :: 0 <= i < |s| ==> s[i] < 128 as char
  }

  lemma {:induction false} AsciiLength(s: string)
    ensures IsAscii(s) <==> ByteLength(s) == |s|
  {
    if s != "" {
      AsciiLength(s[..|s| - 1]);
    }
  }

  function ToLower(s: string): (r: string)
    ensures |r| == |s|
  {
    seq(|s|, i requires 0 <= i < |s| => ToLowerChar(s[i]))
  }

  function ToUpper(s: string): (r: string)
    ensures |r| == |s|
  {
    seq(|s|, i requires 0 <= i < |s| => ToUpperChar(s[i]))
  }

  /** The character loop of both decoders. */
  method DecodeSymbols(payload: string) returns (r: Option<seq<int>>)
    ensures r == Symbols(payload)
  {
    var data: seq<int> := [];
    var i := 0;
    while i < |payload|
      invariant 0 <= i <= |payload| && |data| == i
      invariant forall j :: 0 <= j < i ==> data[j] == Reverse(payload[j]) && data[j] != -1
    {
      var symbol := Reverse(payload[i]);
      if symbol == -1 {
        return None;
      }
      data := data + [symbol];
      i := i + 1;
    }
    assert Symbols(payload).value == data;
    return Some(data);
  }

  /** The character loop of the encoder. */
  method WriteSymbols(prefix: string, ds: seq<int>) returns (result: string)
    requires IsSymbols(ds)
    ensures result == prefix + Spell(ds)
  {
    result := prefix;
    var i := 0;
    while i < |ds|
      invariant 0 <= i <= |ds|
      invariant result == prefix + Spell(ds[..i])
    {
      assert ds[..i + 1] == ds[..i] + [ds[i]];
      SpellSnoc(ds[..i], ds[i]);
      result := result + [CHARSET[ds[i]]];
      i := i + 1;
    }
    assert ds[..i] == ds;
  }

  lemma {:induction false} SpellSnoc(ds: seq<int>, d: int)
    requires IsSymbols(ds) && 0 <= d < 32
    ensures IsSymbols(ds + [d]) && Spell(ds + [d]) == Spell(ds) + [CHARSET[d]]
  {
  }
}
