/** What single tokens match (crates/rust-agent/src/fnmatch.rs), said of the names themselves. */
module GlobClasses {
  import opened Fnmatch

  /** The pattern matches the name. */
  predicate Fits(name: string, pattern: string) {
    Matches(TokensFrom(pattern, 0), name, 0)
  }

  /** A single token in the pattern takes a single character. */
  lemma OneToken(name: string, pattern: string, t: Token)
    requires TokensFrom(pattern, 0) == Cons(t, Nil) && t != Star
    ensures Fits(name, pattern) <==> |name| == 1 && Accepts(t, name[0])
  {
    if name != "" { assert Matches(Nil, name, 1) <==> |name| == 1; }
  }

  /** `?` matches the names of one character, and `*` all names. */
  lemma JokersMatch(name: string)
    ensures Fits(name, "?") <==> |name| == 1
    ensures Fits(name, "*")
  {
    assert TokensFrom("?", 1) == Nil && TokensFrom("*", 1) == Nil;
    OneToken(name, "?", Any);
    assert Matches(Nil, name, |name|);
    assert Matches(Cons(Star, Nil), name, 0);
  }

  lemma ClassEndsAt(pattern: string, classStart: nat, end: nat, close: nat)
    requires classStart <= end <= close < |pattern| && classStart < close && pattern[close] == ']'
    requires forall k | end <= k < close :: pattern[k] != ']' || k == classStart
    ensures ClassEnd(pattern, classStart, end) == close
    decreases close - end
  {
  }

  /** How a class is written, with or without the sign of negation. */
  function Written(negated: bool, members: string): string {
    "[" + (if negated then "!" else "") + members + "]"
  }

  /** Members that can stand in a class: some, and no `]` but the first; without negation, no `!` first. */
  predicate CanStand(negated: bool, members: string) {
    members != "" && (negated || members[0] != '!') && forall k | 0 < k < |members| :: members[k] != ']'
  }

  lemma ClassToken(negated: bool, members: string)
    requires CanStand(negated, members)
    ensures TokensFrom(Written(negated, members), 0) == Cons(Class(negated, members), Nil)
  {
    var pattern := Written(negated, members);
    var start := if negated then 2 else 1;
    assert pattern[start..start + |members|] == members && |pattern| == start + |members| + 1;
    assert forall k | 0 <= k < |members| :: pattern[start + k] == members[k];
    forall k | start <= k < start + |members| ensures pattern[k] != ']' || k == start {
      assert pattern[k] == members[k - start];
    }
    assert pattern[1] == if negated then '!' else members[0];
    ClassEndsAt(pattern, start, start, start + |members|);
    assert ClassAt(pattern, 0) == Closed(negated, members, |pattern|);
    assert TokensFrom(pattern, |pattern|) == Nil;
  }

  /** `[lo-hi]` matches the names of one character from `lo` to `hi`, `[!lo-hi]` those of one other. */
  lemma RangesMatch(name: string, lo: char, hi: char)
    requires hi != ']'
    ensures lo != '!' ==> (Fits(name, "[" + [lo, '-', hi] + "]") <==> |name| == 1 && lo <= name[0] <= hi)
    ensures Fits(name, "[!" + [lo, '-', hi] + "]") <==> |name| == 1 && !(lo <= name[0] <= hi)
  {
    var members := [lo, '-', hi];
    assert Written(true, members) == "[!" + members + "]" && Written(false, members) == "[" + members + "]";
    ClassToken(true, members);
    OneToken(name, Written(true, members), Class(true, members));
    if lo != '!' {
      ClassToken(false, members);
      OneToken(name, Written(false, members), Class(false, members));
    }
    if |name| == 1 {
      assert Items(members, 3) == [] && Items(members, 0) == [Range(lo, hi)];
      assert Listed(name[0], [Range(lo, hi)]) <==> lo <= name[0] <= hi by { OneListed(name[0], Range(lo, hi)); }
    }
  }

  lemma OneListed(c: char, item: Item)
    ensures Listed(c, [item]) <==> Covers(item, c)
  {
    assert [item][0] == item;
  }

  /** Members without a hyphen stand for themselves, a `]` that comes first among them. */
  lemma SetsMatch(name: string, negated: bool, members: string)
    requires CanStand(negated, members) && '-' !in members
    ensures Fits(name, Written(negated, members)) <==> |name| == 1 && (name[0] in members) != negated
  {
    ClassToken(negated, members);
    OneToken(name, Written(negated, members), Class(negated, members));
    if |name| == 1 { SingleItems(members, 0, name[0]); }
  }

  lemma {:induction false} SingleItems(members: string, j: nat, c: char)
    requires j <= |members| && '-' !in members
    ensures Listed(c, Items(members, j)) <==> c in members[j..]
    decreases |members| - j
  {
    if j < |members| {
      assert j + 1 < |members| ==> members[j + 1] in members;
      SingleItems(members, j + 1, c);
      ListedFirst(c, One(members[j]), Items(members, j + 1));
      assert members[j..] == [members[j]] + members[j + 1..];
    }
  }

  /** A bracket that nothing closes stands for itself. */
  lemma OpenBracketMatchesItself(name: string)
    ensures Fits(name, "[") <==> name == "["
  {
    assert ClassAt("[", 0) == Unclosed && TokensFrom("[", 1) == Nil;
    OneToken(name, "[", Literal('['));
  }
}
