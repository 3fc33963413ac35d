/** The glob matcher (crates/rust-agent/src/fnmatch.rs): `MatchHere` keeps only the latest `*` to go back
    to, and decides the obvious non-deterministic meaning of the pattern. */
module Fnmatch {
  import opened Products

  // ---------- What a pattern means ----------

  datatype Item = One(c: char) | Range(lo: char, hi: char)

  datatype Token = Star | Any | Class(negated: bool, members: string) | Literal(c: char)

  datatype Tokens = Nil | Cons(head: Token, tail: Tokens)

  /** The members of a class from position `j` on: `a-z` is a range unless `-` comes first or last. */
  function Items(members: string, j: nat): seq<Item>
    decreases |members| - j
  {
    if j >= |members| then []
    else if j + 2 < |members| && members[j + 1] == '-' then
      [Range(members[j], members[j + 2])] + Items(members, j + 3)
    else
      [One(members[j])] + Items(members, j + 1)
  }

  predicate Covers(item: Item, ch: char) {
    match item
    case One(c) => c == ch
    case Range(lo, hi) => lo <= ch <= hi
  }

  predicate Listed(ch: char, items: seq<Item>) {
    exists i :: 0 <= i < |items| && Covers(items[i], ch)
  }

  /** The characters a token takes. A star takes none by itself. */
  predicate Accepts(t: Token, ch: char) {
    match t
    case Star => false
    case Any => true
    case Class(negated, members) => Listed(ch, Items(members, 0)) != negated
    case Literal(c) => c == ch
  }

  datatype ClassSyntax = Unclosed | Closed(negated: bool, members: string, next: nat)

  /** The first `]` at or after `end` that does not stand first in the class. */
  function ClassEnd(pattern: string, classStart: nat, end: nat): (r: nat)
    requires end <= |pattern|
    ensures end <= r <= |pattern|
    ensures r < |pattern| ==> pattern[r] == ']' && r > classStart
    ensures forall k | end <= k < r :: !(pattern[k] == ']' && k > classStart)
    decreases |pattern| - end
  {
    if end == |pattern| || (pattern[end] == ']' && end > classStart) then end
    else ClassEnd(pattern, classStart, end + 1)
  }

  /** The class written at `start`, if it is closed. It does not depend on any character tested. */
  function ClassAt(pattern: string, start: nat): (r: ClassSyntax)
    requires start < |pattern|
    ensures r.Closed? ==> start < r.next <= |pattern|
  {
    var negated := start + 1 < |pattern| && pattern[start + 1] == '!';
    var classStart := if negated then start + 2 else start + 1;
    var end := ClassEnd(pattern, classStart, classStart);
    if end == |pattern| then Unclosed else Closed(negated, pattern[classStart..end], end + 1)
  }

  function TokensFrom(pattern: string, p: nat): Tokens
    requires p <= |pattern|
    decreases |pattern| - p
  {
    if p == |pattern| then Nil
    else match pattern[p]
      case '*' => Cons(Star, TokensFrom(pattern, p + 1))
      case '?' => Cons(Any, TokensFrom(pattern, p + 1))
      case '[' =>
        (match ClassAt(pattern, p)
         case Unclosed => Cons(Literal('['), TokensFrom(pattern, p + 1))
         case Closed(negated, members, next) => Cons(Class(negated, members), TokensFrom(pattern, next)))
      case c => Cons(Literal(c), TokensFrom(pattern, p + 1))
  }

  /** The non-deterministic meaning: the tokens take `name` from position `i` to its end, a star any
      stretch at all. */
  predicate Matches(ts: Tokens, name: string, i: nat)
    requires i <= |name|
    decreases ts
  {
    match ts
    case Nil => i == |name|
    case Cons(Star, tail) => exists k :: i <= k <= |name| && Matches(tail, name, k)
    case Cons(t, tail) => i < |name| && Accepts(t, name[i]) && Matches(tail, name, i + 1)
  }

  // ---------- The matcher ----------

  datatype ClassMatch = NoClass | ClassMatch(matched: bool, next: nat)

  /** Tests `ch` against the class at `start`; `NoClass` when the class is not closed. */
  method MatchClass(ch: char, pattern: string, start: nat) returns (r: ClassMatch)
    requires start < |pattern|
    ensures r == match ClassAt(pattern, start)
                 case Unclosed => NoClass
                 case Closed(negated, members, next) => ClassMatch(Accepts(Class(negated, members), ch), next)
  {
    var i := start + 1;
    var negated := i < |pattern| && pattern[i] == '!';
    if negated {
      i := i + 1;
    }
    var classStart := i;
    var end := i;
    while true
      invariant classStart <= end <= |pattern|
      invariant ClassEnd(pattern, classStart, end) == ClassEnd(pattern, classStart, classStart)
      decreases |pattern| - end
    {
      if end == |pattern| {
        return NoClass;
      } else if pattern[end] == ']' && end > classStart {
        break;
      }
      end := end + 1;
    }
    var members := pattern[classStart..end];
    var matched := ScanMembers(ch, members);
    r := ClassMatch(matched != negated, end + 1);
  }

  method ScanMembers(ch: char, members: string) returns (matched: bool)
    ensures matched == Listed(ch, Items(members, 0))
  {
    matched := false;
    var j := 0;
    while j < |members|
      invariant Listed(ch, Items(members, 0)) == (matched || Listed(ch, Items(members, j)))
      decreases |members| - j
    {
      if j + 2 < |members| && members[j + 1] == '-' {
        ListedFirst(ch, Range(members[j], members[j + 2]), Items(members, j + 3));
        if members[j] <= ch && ch <= members[j + 2] {
          matched := true;
        }
        j := j + 3;
      } else {
        ListedFirst(ch, One(members[j]), Items(members, j + 1));
        if members[j] == ch {
          matched := true;
        }
        j := j + 1;
      }
    }
  }

  lemma ListedFirst(ch: char, item: Item, items: seq<Item>)
    ensures Listed(ch, [item] + items) <==> Covers(item, ch) || Listed(ch, items)
  {
    var all := [item] + items;
    assert all[0] == item;
    if Listed(ch, items) {
      var i :| 0 <= i < |items| && Covers(items[i], ch);
      assert all[i + 1] == items[i];
    }
    if Listed(ch, all) {
      var i :| 0 <= i < |all| && Covers(all[i], ch);
      assert i > 0 ==> all[i] == items[i - 1];
    }
  }

  /** Tests `ch` against the token at `p`, which is no star; an unclosed `[` is a literal. */
  method TestToken(ch: char, pattern: string, p: nat) returns (taken: bool, next: nat)
    requires p < |pattern| && pattern[p] != '*'
    ensures p < next <= |pattern| && TokensFrom(pattern, p).tail == TokensFrom(pattern, next)
    ensures taken == Accepts(TokensFrom(pattern, p).head, ch)
  {
    next := p + 1;
    if pattern[p] == '?' {
      taken := true;
    } else if pattern[p] == '[' {
      var tested := MatchClass(ch, pattern, p);
      match tested {
        case ClassMatch(ok, after) => taken, next := ok, after;
        case NoClass => taken := pattern[p] == ch;
      }
    } else {
      taken := pattern[p] == ch;
    }
  }

  /** Keeping only the latest star loses no match. Every round raises `starN` or, at the same `starN`,
      `p`, so there are at most (|name| + 1) * (|pattern| + 1) rounds. */
  method MatchHere(name: string, pattern: string) returns (matched: bool, ghost rounds: nat)
    ensures matched == Matches(TokensFrom(pattern, 0), name, 0)
    ensures rounds <= (|name| + 1) * (|pattern| + 1)
  {
    var n, p := 0, 0;
    var starP := -1;    // no star yet
    var starN := 0;
    rounds := 0;
    ghost var goal := Matches(TokensFrom(pattern, 0), name, 0);
    while n < |name|
      invariant Progress(name, pattern, n, p, starP, starN, goal)
      invariant rounds <= Times(starN, |pattern| + 1) + p
      decreases |name| - starN, |pattern| - p
    {
      rounds := rounds + 1;
      if p < |pattern| {
        if pattern[p] == '*' {
          NewStar(name, pattern, n, p, starP, starN, goal);
          TimesGrows(starN, n, |pattern| + 1);
          starP, starN := p, n;
          p := p + 1;
          continue;
        }
        var taken, next := TestToken(name[n], pattern, p);
        if taken {
          TakeOne(name, pattern, n, p, starP, starN, goal, next);
          n, p := n + 1, next;
          continue;
        }
      }
      if starP < 0 {
        return false, rounds;
      }
      GoBack(name, pattern, n, p, starP, starN, goal);
      TimesGrows(starN, starN + 1, |pattern| + 1);
      starN := starN + 1;
      n := starN;
      p := starP + 1;
    }
    AtNameEnd(name, pattern, p, starP, starN, goal);
    RoundsBound(starN, p, |name|, |pattern|);
    matched := forall k | p <= k < |pattern| :: pattern[k] == '*';
  }

  method FnMatch(name: string, pattern: string) returns (matched: bool)
    ensures matched == Matches(TokensFrom(pattern, 0), name, 0)
  {
    ghost var rounds;
    matched, rounds := MatchHere(name, pattern);
  }

  // ---------- Why the latest star is enough ----------

  /** Without stars, the tokens from `a` down to `b` take `name[i..j]` one character each. */
  predicate Run(a: Tokens, b: Tokens, name: string, i: nat, j: nat)
    requires i <= j <= |name|
    decreases j - i
  {
    if i == j then a == b
    else a.Cons? && Accepts(a.head, name[i]) && Run(a.tail, b, name, i + 1, j)
  }

  /** What the loop knows: before any star, matching goes on from `p` and `n`; after one, the whole match
      is a match from the latest star, and from just behind it `p` and `n` were reached without stars. */
  ghost predicate Progress(name: string, pattern: string, n: int, p: int, starP: int, starN: int, goal: bool) {
    && 0 <= starN <= n <= |name| && 0 <= p <= |pattern| && -1 <= starP < |pattern|
    && if starP < 0 then starN == 0 && goal == Matches(TokensFrom(pattern, p), name, n)
       else
         && starP < p && pattern[starP] == '*'
         && goal == Matches(TokensFrom(pattern, starP), name, starN)
         && Run(TokensFrom(pattern, starP + 1), TokensFrom(pattern, p), name, starN, n)
  }

  lemma {:induction false} RunMatches(a: Tokens, b: Tokens, name: string, i: nat, j: nat)
    requires i <= j <= |name| && Run(a, b, name, i, j)
    ensures Matches(a, name, i) == Matches(b, name, j)
    decreases j - i
  {
    if i < j { RunMatches(a.tail, b, name, i + 1, j); }
  }

  lemma {:induction false} RunSnoc(a: Tokens, b: Tokens, name: string, i: nat, j: nat)
    requires i <= j < |name| && Run(a, b, name, i, j) && b.Cons? && Accepts(b.head, name[j])
    ensures Run(a, b.tail, name, i, j + 1)
    decreases j - i
  {
    if i < j { RunSnoc(a.tail, b, name, i + 1, j); }
  }

  /** A match that starts later reaches the end of the run later by as much. */
  lemma {:induction false} RunLater(a: Tokens, b: Tokens, name: string, i: nat, j: nat, i': nat)
    requires i <= j <= |name| && Run(a, b, name, i, j)
    requires i <= i' <= |name| && Matches(a, name, i')
    ensures i' + (j - i) <= |name| && Matches(b, name, i' + (j - i))
    decreases j - i
  {
    if i < j { RunLater(a.tail, b, name, i + 1, j, i' + 1); }
  }

  lemma StarFrom(ts: Tokens, name: string, i: nat, i': nat)
    requires ts.Cons? && ts.head.Star? && i <= i' <= |name| && Matches(ts, name, i')
    ensures Matches(ts, name, i)
  {
    var k :| i' <= k <= |name| && Matches(ts.tail, name, k);
  }

  lemma NewStar(name: string, pattern: string, n: nat, p: nat, starP: int, starN: nat, goal: bool)
    requires Progress(name, pattern, n, p, starP, starN, goal) && p < |pattern| && pattern[p] == '*'
    ensures Progress(name, pattern, n, p + 1, p, n, goal)
  {
    var ts := TokensFrom(pattern, p);
    if starP >= 0 {
      var a := TokensFrom(pattern, starP + 1);
      RunMatches(a, ts, name, starN, n);
      if goal {
        assert TokensFrom(pattern, starP) == Cons(Star, a) && Matches(Cons(Star, a), name, starN);
        var k :| starN <= k <= |name| && Matches(a, name, k);
        RunLater(a, ts, name, starN, n, k);
        StarFrom(ts, name, n, k + (n - starN));
      } else {
        assert TokensFrom(pattern, starP) == Cons(Star, a);
        assert !Matches(a, name, starN);
      }
    }
  }

  lemma TakeOne(name: string, pattern: string, n: nat, p: nat, starP: int, starN: nat, goal: bool, next: nat)
    requires Progress(name, pattern, n, p, starP, starN, goal) && n < |name| && p < next <= |pattern|
    requires Accepts(TokensFrom(pattern, p).head, name[n])
    requires TokensFrom(pattern, p).tail == TokensFrom(pattern, next)
    ensures Progress(name, pattern, n + 1, next, starP, starN, goal)
  {
    if starP >= 0 {
      RunSnoc(TokensFrom(pattern, starP + 1), TokensFrom(pattern, p), name, starN, n);
    }
  }

  lemma GoBack(name: string, pattern: string, n: nat, p: nat, starP: int, starN: nat, goal: bool)
    requires Progress(name, pattern, n, p, starP, starN, goal) && n < |name| && starP >= 0
    requires !Matches(TokensFrom(pattern, p), name, n)
    ensures Progress(name, pattern, starN + 1, starP + 1, starP, starN + 1, goal)
  {
    var a := TokensFrom(pattern, starP + 1);
    RunMatches(a, TokensFrom(pattern, p), name, starN, n);
  }

  lemma {:induction false} OnlyStarsLeft(name: string, pattern: string, p: nat)
    requires p <= |pattern|
    ensures Matches(TokensFrom(pattern, p), name, |name|) <==> forall k | p <= k < |pattern| :: pattern[k] == '*'
    decreases |pattern| - p
  {
    if p < |pattern| { OnlyStarsLeft(name, pattern, p + 1); }
  }

  lemma AtNameEnd(name: string, pattern: string, p: nat, starP: int, starN: nat, goal: bool)
    requires Progress(name, pattern, |name|, p, starP, starN, goal)
    ensures goal <==> forall k | p <= k < |pattern| :: pattern[k] == '*'
  {
    OnlyStarsLeft(name, pattern, p);
    if starP >= 0 {
      var a, b := TokensFrom(pattern, starP + 1), TokensFrom(pattern, p);
      RunMatches(a, b, name, starN, |name|);
      if goal {
        assert TokensFrom(pattern, starP) == Cons(Star, a) && Matches(Cons(Star, a), name, starN);
        var k :| starN <= k <= |name| && Matches(a, name, k);
        RunLater(a, b, name, starN, |name|, k);
      }
    }
  }

  lemma RoundsBound(starN: nat, p: nat, n: nat, m: nat)
    requires starN <= n && p <= m
    ensures Times(starN, m + 1) + p <= (n + 1) * (m + 1)
  {
    TimesGrows(starN, n + 1, m + 1);
    TimesMultiplies(n + 1, m + 1);
  }

  // ---------- What this says of simple patterns ----------

  predicate Plain(c: char) {
    c != '*' && c != '?' && c != '['
  }

  /** A pattern without special characters matches itself alone. */
  lemma {:induction false} PlainMatchesItself(name: string, pattern: string, p: nat, i: nat)
    requires p <= |pattern| && i <= |name| && forall k | 0 <= k < |pattern| :: Plain(pattern[k])
    ensures Matches(TokensFrom(pattern, p), name, i) <==> name[i..] == pattern[p..]
    decreases |pattern| - p
  {
    if p < |pattern| && i < |name| {
      PlainMatchesItself(name, pattern, p + 1, i + 1);
      assert name[i..] == [name[i]] + name[i + 1..] && pattern[p..] == [pattern[p]] + pattern[p + 1..];
    }
  }

  /** A star in front matches exactly the names that have an ending the rest matches. */
  lemma {:induction false} StarMatchesEndings(name: string, pattern: string)
    requires forall k | 0 <= k < |pattern| :: Plain(pattern[k])
    ensures Matches(TokensFrom("*" + pattern, 0), name, 0)
       <==> |pattern| <= |name| && name[|name| - |pattern|..] == pattern
  {
    var star := "*" + pattern;
    PlainTail(pattern, 0);
    var rest := TokensFrom(star, 1);
    forall k | 0 <= k <= |name| ensures Matches(rest, name, k) <==> name[k..] == pattern {
      PlainMatchesItself(name, pattern, 0, k);
      assert pattern[0..] == pattern;
    }
    assert TokensFrom(star, 0) == Cons(Star, rest);
    if |pattern| <= |name| && name[|name| - |pattern|..] == pattern {
      assert Matches(rest, name, |name| - |pattern|);
    }
  }

  lemma {:induction false} PlainTail(pattern: string, p: nat)
    requires p <= |pattern| && forall k | 0 <= k < |pattern| :: Plain(pattern[k])
    ensures TokensFrom("*" + pattern, p + 1) == TokensFrom(pattern, p)
    decreases |pattern| - p
  {
    if p < |pattern| { PlainTail(pattern, p + 1); }
  }
}
