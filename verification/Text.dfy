/** The few string operations the settings and the executor depend on. */
module Text {
  /** Unicode White_Space, as `unicode.IsSpace` has it. */
  predicate IsSpace(c: char) {
    c in {'\t', '\n', '\U{0B}', '\U{0C}', '\r', ' ', '\U{85}', '\U{A0}', '\U{1680}', '\U{2028}', '\U{2029}',
          '\U{202F}', '\U{205F}', '\U{3000}'}
    || '\U{2000}' <= c <= '\U{200A}'
  }

  function TrimLeft(s: string): (r: string)
    ensures r == [] || !IsSpace(r[0])
    ensures forall c :: c in r ==> c in s
  {
    if s != [] && IsSpace(s[0]) then TrimLeft(s[1..]) else s
  }

  function TrimRight(s: string): (r: string)
    ensures r <= s
    ensures r == [] || !IsSpace(r[|r| - 1])
  {
    if s != [] && IsSpace(s[|s| - 1]) then TrimRight(s[..|s| - 1]) else s
  }

  /** `strings.TrimSpace`. */
  function Trim(s: string): (r: string) {
    TrimRight(TrimLeft(s))
  }

  lemma TrimIdempotent(s: string)
    ensures Trim(Trim(s)) == Trim(s)
  {
    var l := TrimLeft(s);
    var r := TrimRight(l);
    if r != [] {
      assert r[0] == l[0];
    }
  }

  lemma TrimOfSpaceless(s: string)
    requires forall c :: c in s ==> !IsSpace(c)
    ensures Trim(s) == s
  {
  }

  /** `unicode.ToLower`, kept to the characters whose lower case is an ASCII letter: the
      Latin capitals, the Kelvin sign and the dotted capital I. No other character has one,
      so no other character can make a string equal an ASCII name. */
  function LowerChar(c: char): char {
    if 'A' <= c <= 'Z' then (c as int + 32) as char
    else if c == '\U{212A}' then 'k'
    else if c == '\U{130}' then 'i'
    else c
  }

  /** On ASCII, capitals go to the small letter in the same place of the alphabet, and all else stays. */
  lemma LowerCharOnASCII(c: char)
    requires c as int < 128
    ensures 'A' <= c <= 'Z' ==>
      'a' <= LowerChar(c) <= 'z' && LowerChar(c) as int - 'a' as int == c as int - 'A' as int
    ensures !('A' <= c <= 'Z') ==> LowerChar(c) == c
  {
  }

  function Lower(s: string): (r: string)
    ensures |r| == |s|
    ensures forall i :: 0 <= i < |s| ==> r[i] == LowerChar(s[i])
  {
    seq(|s|, i requires 0 <= i < |s| => LowerChar(s[i]))
  }

  /** `strings.ToLower(strings.TrimSpace(s))`. */
  function Fold(s: string): string {
    Lower(Trim(s))
  }

  predicate Folded(s: string) {
    forall c :: c in s ==> !IsSpace(c) && LowerChar(c) == c
  }

  lemma FoldOfFolded(s: string)
    requires Folded(s)
    ensures Fold(s) == s
  {
    TrimOfSpaceless(s);
    assert |Lower(s)| == |s|;
    assert forall i :: 0 <= i < |s| ==> s[i] in s;
  }

  /** `strings.ContainsAny`. */
  predicate ContainsAny(s: string, chars: string) {
    exists i :: 0 <= i < |s| && s[i] in chars
  }

  /** `filepath.IsAbs` on Unix. */
  predicate IsAbs(path: string) {
    path != [] && path[0] == '/'
  }

  function StripSlashes(path: string): (r: string)
    ensures r <= path
    ensures r == [] || r[|r| - 1] != '/'
  {
    if path != [] && path[|path| - 1] == '/' then StripSlashes(path[..|path| - 1]) else path
  }

  /** What follows the last '/', or all of the path when it has none. */
  function AfterSlash(path: string): (r: string)
    ensures |r| <= |path| && path[|path| - |r|..] == r
    ensures '/' !in r
    ensures |r| == |path| || path[|path| - |r| - 1] == '/'
  {
    if path == [] || path[|path| - 1] == '/' then []
    else
      assert path == path[..|path| - 1] + [path[|path| - 1]];
      AfterSlash(path[..|path| - 1]) + [path[|path| - 1]]
  }

  /** `filepath.Base` on Unix. */
  function Base(path: string): string {
    if path == [] then "."
    else
      var bare := StripSlashes(path);
      if bare == [] then "/" else AfterSlash(bare)
  }

  /** `strings.Split(s, "\n")`. */
  function Lines(s: string): (ls: seq<string>)
    ensures |ls| > 0
  {
    if s == [] then [""]
    else
      var rest := Lines(s[1..]);
      if s[0] == '\n' then [""] + rest else [[s[0]] + rest[0]] + rest[1..]
  }

  /** `strings.Join(ls, "\n")`. */
  function Joined(ls: seq<string>): string {
    if ls == [] then "" else if |ls| == 1 then ls[0] else ls[0] + "\n" + Joined(ls[1..])
  }

  /** The lines of a string hold no line break, and put together again with line breaks between them
      they are the string. */
  lemma {:induction false} LinesRoundTrip(s: string)
    ensures Joined(Lines(s)) == s
    ensures forall l :: l in Lines(s) ==> '\n' !in l
  {
    if s != "" {
      var rest := Lines(s[1..]);
      LinesRoundTrip(s[1..]);
      assert s == [s[0]] + s[1..];
      if s[0] == '\n' {
        assert Lines(s)[1..] == rest;
      } else {
        assert Lines(s)[1..] == rest[1..];
        assert |rest| > 1 ==> Joined(rest) == rest[0] + "\n" + Joined(rest[1..]);
        assert Joined(Lines(s)) == [s[0]] + Joined(rest);
      }
    }
  }

  /** Trimming takes off white space at both ends, all of it, and nothing else. */
  lemma {:induction false} TrimStripsSpaces(s: string)
    ensures exists a, b :: s == a + Trim(s) + b && (forall c :: c in a || c in b ==> IsSpace(c))
    ensures Trim(s) == "" || (!IsSpace(Trim(s)[0]) && !IsSpace(Trim(s)[|Trim(s)| - 1]))
  {
    var l := TrimLeft(s);
    var a := TrimLeftStrips(s);
    var b := TrimRightStrips(l);
    assert s == a + Trim(s) + b;
    if Trim(s) != "" {
      assert Trim(s)[0] == l[0];
    }
  }

  lemma {:induction false} TrimLeftStrips(s: string) returns (a: string)
    ensures s == a + TrimLeft(s) && forall c :: c in a ==> IsSpace(c)
  {
    a := "";
    if s != "" && IsSpace(s[0]) {
      a := TrimLeftStrips(s[1..]);
      a := [s[0]] + a;
    }
  }

  lemma {:induction false} TrimRightStrips(s: string) returns (b: string)
    ensures s == TrimRight(s) + b && forall c :: c in b ==> IsSpace(c)
  {
    b := "";
    if s != "" && IsSpace(s[|s| - 1]) {
      b := TrimRightStrips(s[..|s| - 1]);
      b := b + [s[|s| - 1]];
    }
  }
}
