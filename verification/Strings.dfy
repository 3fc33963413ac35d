/** Text helpers shared by the agent-side modules. Text is `seq<char>`; every marker the program
    searches for is ASCII, so character offsets stand for the source's byte offsets. */
module Strings {

  import opened Options

  predicate SameAt(s: string, m: string, i: int) {
    0 <= i < |s| && i < |m| && s[i] == m[i]
  }

  /** `s` begins with `m`. Said through `SameAt`, so that the solver compares characters only where a
      proof names them; `BeginsIsPrefix` connects it to the built-in prefix order. */
  predicate Begins(s: string, m: string) {
    |m| <= |s| && forall i | 0 <= i < |m| :: SameAt(s, m, i)
  }

  lemma BeginsIsPrefix(s: string, m: string)
    ensures Begins(s, m) <==> m <= s
  {
    if m <= s {
      forall i | 0 <= i < |m| ensures SameAt(s, m, i) { }
    } else if Begins(s, m) {
      forall i | 0 <= i < |m| ensures s[i] == m[i] { assert SameAt(s, m, i); }
    }
  }

  predicate MatchAt(s: string, i: int, m: string, k: int) {
    0 <= i + k < |s| && 0 <= k < |m| && s[i + k] == m[k]
  }

  /** `m` occurs in `s` at offset `i`. */
  predicate OccursAt(s: string, i: int, m: string) {
    0 <= i && i + |m| <= |s| && forall k | 0 <= k < |m| :: MatchAt(s, i, m, k)
  }

  lemma MatchGives(s: string, i: int, m: string, k: int)
    requires OccursAt(s, i, m) && 0 <= k < |m|
    ensures IsAt(s, i + k, m[k])
  {
    assert MatchAt(s, i, m, k);
  }

  lemma OccursIsBegins(s: string, i: int, m: string)
    ensures OccursAt(s, i, m) <==> 0 <= i <= |s| && Begins(s[i..], m)
  {
    if OccursAt(s, i, m) {
      forall k | 0 <= k < |m| ensures SameAt(s[i..], m, k) { assert MatchAt(s, i, m, k); }
    } else if 0 <= i <= |s| && Begins(s[i..], m) {
      forall k | 0 <= k < |m| ensures MatchAt(s, i, m, k) { assert SameAt(s[i..], m, k); }
    }
  }

  lemma OccursIsSlice(s: string, i: int, m: string)
    ensures OccursAt(s, i, m) <==> 0 <= i && i + |m| <= |s| && s[i..i + |m|] == m
  {
    OccursIsBegins(s, i, m);
    if 0 <= i <= |s| {
      BeginsIsPrefix(s[i..], m);
      if i + |m| <= |s| { assert s[i..][..|m|] == s[i..i + |m|]; }
    }
  }

  predicate IsAt(s: string, i: int, c: char) {
    0 <= i < |s| && s[i] == c
  }

  predicate Without(s: string, c: char) {
    forall i | 0 <= i < |s| :: !IsAt(s, i, c)
  }

  lemma NotIn(s: string, c: char, i: int)
    requires Without(s, c)
    ensures !IsAt(s, i, c)
  {
  }

  lemma WithoutJoin(a: string, b: string, c: char)
    requires Without(a, c) && Without(b, c)
    ensures Without(a + b, c)
  {
    forall i | 0 <= i < |a + b| ensures !IsAt(a + b, i, c) {
      assert if i < |a| then !IsAt(a, i, c) else !IsAt(b, i - |a|, c);
    }
  }

  /** The first occurrence of `m` in `s` at or after `from`. */
  function FindFrom(s: string, m: string, from: nat): (r: Option<nat>)
    requires m != ""
    ensures r.Some? ==> from <= r.value && OccursAt(s, r.value, m)
    ensures forall j {:trigger OccursAt(s, j, m)} | from <= j && (r.Some? ==> j < r.value) :: !OccursAt(s, j, m)
    decreases |s| - from
  {
    if from + |m| > |s| then None
    else if OccursAt(s, from, m) then Some(from)
    else FindFrom(s, m, from + 1)
  }

  function Find(s: string, m: string): (r: Option<nat>)
    requires m != ""
    ensures r.Some? ==> OccursAt(s, r.value, m)
    ensures forall j {:trigger OccursAt(s, j, m)} | 0 <= j && (r.Some? ==> j < r.value) :: !OccursAt(s, j, m)
  {
    FindFrom(s, m, 0)
  }

  /** A position that is an occurrence with none before it is what `Find` returns. */
  lemma FindIs(s: string, m: string, i: nat)
    requires m != "" && OccursAt(s, i, m)
    requires forall j | 0 <= j < i :: !OccursAt(s, j, m)
    ensures Find(s, m) == Some(i)
  {
  }

  lemma {:induction false} FindFromIs(s: string, m: string, from: nat, i: nat)
    requires m != "" && from <= i && OccursAt(s, i, m)
    requires forall j | from <= j < i :: !OccursAt(s, j, m)
    ensures FindFrom(s, m, from) == Some(i)
    decreases i - from
  {
    if from < i { FindFromIs(s, m, from + 1, i); }
  }

  /** Searching from a position is searching the text from there on. */
  lemma FindFromShift(s: string, m: string, from: nat)
    requires m != "" && from <= |s|
    ensures FindFrom(s, m, from) == match Find(s[from..], m) case None => None case Some(k) => Some(from + k)
  {
    var t := s[from..];
    forall j {:trigger OccursAt(t, j, m)} | 0 <= j ensures OccursAt(t, j, m) <==> OccursAt(s, from + j, m) {
      OccursShift(s, m, from, j);
    }
    var r, q := FindFrom(s, m, from), Find(t, m);
    if r.Some? { assert OccursAt(t, r.value - from, m); }
    if q.Some? { assert OccursAt(s, from + q.value, m); }
  }

  lemma OccursShift(s: string, m: string, from: nat, j: nat)
    requires from <= |s|
    ensures OccursAt(s[from..], j, m) <==> OccursAt(s, from + j, m)
  {
    OccursIsBegins(s[from..], j, m);
    OccursIsBegins(s, from + j, m);
    if from + j <= |s| { assert s[from..][j..] == s[from + j..]; }
  }

  predicate IsAsciiWhitespace(c: char) {
    c == ' ' || c == '\t' || c == '\n' || c == '\r' || c as int == 12
  }

  function LowerAscii(c: char): char {
    if 'A' <= c <= 'Z' then (c as int + 32) as char else c
  }

  predicate EqIgnoreAsciiCase(a: string, b: string) {
    |a| == |b| && forall i | 0 <= i < |a| :: LowerAscii(a[i]) == LowerAscii(b[i])
  }

  /** The same letter, in capitals first. */
  predicate CasePair(capital: char, small: char) {
    'A' <= capital <= 'Z' && small as int == capital as int + 32
  }

  predicate SameButForCase(a: string, b: string) {
    |a| == |b| && forall i | 0 <= i < |a| :: a[i] == b[i] || CasePair(a[i], b[i]) || CasePair(b[i], a[i])
  }

  lemma EqIgnoresCase(a: string, b: string)
    ensures EqIgnoreAsciiCase(a, b) <==> SameButForCase(a, b)
  {
    if |a| == |b| {
      forall i | 0 <= i < |a|
        ensures LowerAscii(a[i]) == LowerAscii(b[i]) <==> a[i] == b[i] || CasePair(a[i], b[i]) || CasePair(b[i], a[i])
      {
      }
    }
  }

  /** Unicode White_Space, the class `trim` strips. */
  predicate IsWhitespace(c: char) {
    var u := c as int;
    9 <= u <= 13 || u == 0x20 || u == 0x85 || u == 0xA0 || u == 0x1680 || 0x2000 <= u <= 0x200A
    || u == 0x2028 || u == 0x2029 || u == 0x202F || u == 0x205F || u == 0x3000
  }

  function TrimStart(s: string): string {
    if s != "" && IsWhitespace(s[0]) then TrimStart(s[1..]) else s
  }

  function TrimEnd(s: string): string {
    if s != "" && IsWhitespace(s[|s| - 1]) then TrimEnd(s[..|s| - 1]) else s
  }

  function Trim(s: string): string {
    TrimEnd(TrimStart(s))
  }

  predicate WhitespaceAt(s: string, i: int) {
    0 <= i < |s| && IsWhitespace(s[i])
  }

  predicate AllWhitespace(s: string) {
    forall i | 0 <= i < |s| :: WhitespaceAt(s, i)
  }

  /** Text that `trim` leaves alone and that is not empty. */
  predicate Trimmed(s: string) {
    s != "" && !IsWhitespace(s[0]) && !IsWhitespace(s[|s| - 1])
  }

  lemma AllWhitespaceSplit(a: string, b: string)
    ensures AllWhitespace(a + b) <==> AllWhitespace(a) && AllWhitespace(b)
  {
    if AllWhitespace(a + b) {
      forall i | 0 <= i < |a| ensures WhitespaceAt(a, i) { assert WhitespaceAt(a + b, i); }
      forall i | 0 <= i < |b| ensures WhitespaceAt(b, i) { assert WhitespaceAt(a + b, |a| + i); }
    } else if AllWhitespace(a) && AllWhitespace(b) {
      forall i | 0 <= i < |a + b| ensures WhitespaceAt(a + b, i) {
        assert if i < |a| then WhitespaceAt(a, i) else WhitespaceAt(b, i - |a|);
      }
    }
  }

  lemma {:induction false} TrimStartSplits(s: string) returns (w: string)
    ensures s == w + TrimStart(s) && AllWhitespace(w)
    ensures TrimStart(s) != "" ==> !IsWhitespace(TrimStart(s)[0])
  {
    if s != "" && IsWhitespace(s[0]) {
      var w' := TrimStartSplits(s[1..]);
      w := [s[0]] + w';
      assert WhitespaceAt([s[0]], 0);
      AllWhitespaceSplit([s[0]], w');
    } else {
      w := "";
    }
  }

  lemma {:induction false} TrimEndSplits(s: string) returns (w: string)
    ensures s == TrimEnd(s) + w && AllWhitespace(w)
    ensures TrimEnd(s) != "" ==> !IsWhitespace(TrimEnd(s)[|TrimEnd(s)| - 1])
  {
    if s != "" && IsWhitespace(s[|s| - 1]) {
      var last := s[|s| - 1..];
      var w' := TrimEndSplits(s[..|s| - 1]);
      w := w' + last;
      assert WhitespaceAt(last, 0);
      AllWhitespaceSplit(w', last);
    } else {
      w := "";
    }
  }

  lemma {:induction false} TrimStartPad(w: string, s: string)
    requires AllWhitespace(w) && (s != "" ==> !IsWhitespace(s[0]))
    ensures TrimStart(w + s) == s
  {
    if w == "" {
      assert w + s == s;
    } else {
      assert WhitespaceAt(w, 0) && w == [w[0]] + w[1..] && (w + s)[1..] == w[1..] + s;
      AllWhitespaceSplit([w[0]], w[1..]);
      TrimStartPad(w[1..], s);
    }
  }

  lemma {:induction false} TrimEndPad(s: string, w: string)
    requires AllWhitespace(w) && (s != "" ==> !IsWhitespace(s[|s| - 1]))
    ensures TrimEnd(s + w) == s
  {
    if w == "" {
      assert s + w == s;
    } else {
      var front := w[..|w| - 1];
      assert WhitespaceAt(w, |w| - 1) && w == front + [w[|w| - 1]] && (s + w)[..|s + w| - 1] == s + front;
      AllWhitespaceSplit(front, [w[|w| - 1]]);
      TrimEndPad(s, front);
    }
  }

  /** Padding a trimmed text with whitespace is what `trim` undoes. */
  lemma TrimPad(w: string, s: string, w': string)
    requires AllWhitespace(w) && AllWhitespace(w') && Trimmed(s)
    ensures Trim(w + s + w') == s
  {
    assert w + s + w' == w + (s + w');
    TrimStartPad(w, s + w');
    TrimEndPad(s, w');
  }

  lemma TrimBlank(w: string)
    ensures Trim(w) == "" <==> AllWhitespace(w)
  {
    var a := TrimStartSplits(w);
    var b := TrimEndSplits(TrimStart(w));
    if AllWhitespace(w) {
      assert w + "" == w;
      TrimStartPad(w, "");
    }
    if Trim(w) == "" {
      AllWhitespaceSplit(a, TrimStart(w));
      assert "" + b == b;
    }
  }

  /** No occurrence of `m` in `s`. */
  predicate Clean(s: string, m: string) {
    forall j {:trigger OccursAt(s, j, m)} | 0 <= j <= |s| :: !OccursAt(s, j, m)
  }

  lemma CleanShort(s: string, m: string)
    requires |s| < |m|
    ensures Clean(s, m)
  {
  }

  lemma CleanWithout(s: string, m: string, k: nat)
    requires k < |m| && Without(s, m[k])
    ensures Clean(s, m)
  {
    var c := m[k];
    forall j | 0 <= j <= |s| ensures !OccursAt(s, j, m) {
      if OccursAt(s, j, m) {
        MatchGives(s, j, m, k);
        NotIn(s, c, j + k);
      }
    }
  }

  /** No occurrence of `m` crosses a character that `m` does not have. */
  lemma NoCross(a: string, c: char, b: string, m: string, j: int)
    requires m != "" && Clean(a, m) && Without(m, c) && OccursAt(a + [c] + b, j, m)
    ensures j > |a| && OccursAt(b, j - |a| - 1, m)
  {
    var s := a + [c] + b;
    if j + |m| <= |a| {
      forall k | 0 <= k < |m| ensures MatchAt(a, j, m, k) { assert MatchAt(s, j, m, k); }
      assert OccursAt(a, j, m);
    } else if j <= |a| {
      MatchGives(s, j, m, |a| - j);
      NotIn(m, c, |a| - j);
    } else {
      var i := j - |a| - 1;
      forall k | 0 <= k < |m| ensures MatchAt(b, i, m, k) { assert MatchAt(s, j, m, k); }
    }
  }

  lemma CleanJoin(a: string, c: char, b: string, m: string)
    requires m != "" && Clean(a, m) && Clean(b, m) && Without(m, c)
    ensures Clean(a + [c] + b, m)
  {
    forall j | 0 <= j <= |a + [c] + b| ensures !OccursAt(a + [c] + b, j, m) {
      if OccursAt(a + [c] + b, j, m) { NoCross(a, c, b, m, j); }
    }
  }

  /** The first occurrence of `m` is where it is written, when the text before cannot hold one. */
  lemma FindAfter(a: string, c: char, m: string, post: string)
    requires m != "" && Clean(a, m) && Without(m, c)
    ensures Find(a + [c] + (m + post), m) == Some(|a| + 1)
  {
    var s := a + [c] + (m + post);
    var i := |a| + 1;
    forall k | 0 <= k < |m| ensures MatchAt(s, i, m, k) { }
    forall j | 0 <= j < |a| + 1 ensures !OccursAt(s, j, m) {
      if OccursAt(s, j, m) { NoCross(a, c, m + post, m, j); }
    }
    FindIs(s, m, |a| + 1);
  }

  /** A character is found where it is first written. */
  lemma FindChar(a: string, c: char, rest: string)
    requires Without(a, c)
    ensures Find(a + [c] + rest, [c]) == Some(|a|)
  {
    var s := a + [c] + rest;
    var i := |a|;
    forall k | 0 <= k < 1 ensures MatchAt(s, i, [c], k) { }
    forall j | 0 <= j < i ensures !OccursAt(s, j, [c]) {
      assert s[j] == a[j];
      if OccursAt(s, j, [c]) {
        MatchGives(s, j, [c], 0);
        NotIn(a, c, j);
      }
    }
    FindIs(s, [c], i);
  }

  /** Reading past a beginning leaves the rest. */
  lemma PastBeginning(text: string, from: nat, a: string, b: string)
    requires from <= |text| && text[from..] == a + b
    ensures |text| == from + |a| + |b| && text[from..from + |a|] == a && text[from + |a|..] == b
  {
    assert text[from..from + |a|] == text[from..][..|a|];
    assert text[from + |a|..] == text[from..][|a|..];
  }

  function Flatten<T>(chunks: seq<seq<T>>): seq<T> {
    if chunks == [] then [] else chunks[0] + Flatten(chunks[1..])
  }

  lemma {:induction false} FlattenSnoc<T>(chunks: seq<seq<T>>, c: seq<T>)
    ensures Flatten(chunks + [c]) == Flatten(chunks) + c
  {
    if chunks == [] {
      assert [c][1..] == [];
    } else {
      assert (chunks + [c])[1..] == chunks[1..] + [c];
      FlattenSnoc(chunks[1..], c);
    }
  }
}
