/** Bare URLs and email addresses in plain text (app/ui/src/chat_view.rs). All the characters that matter are
    ASCII, so the source's byte positions are character positions here. */
module Autolink {
  import opened Options
  import opened Strings

  datatype LinkType = Inline | Autolinked | Email

  datatype Found = Found(start: nat, end: nat, kind: LinkType, destination: string)

  const HTTPS := "https://"
  const HTTP := "http://"
  const WWW := "www."

  predicate IsAlphanumeric(c: char) {
    '0' <= c <= '9' || 'a' <= c <= 'z' || 'A' <= c <= 'Z'
  }

  predicate IsEmailToken(c: char) {
    IsAlphanumeric(c) || c in ".!#$%&'*+/=?^_`{|}~-@"
  }

  predicate IsWordBefore(c: char) {
    IsAlphanumeric(c) || c in ".-_/"
  }

  predicate EndsUrl(c: char) {
    IsAsciiWhitespace(c) || c in "<>\"'"
  }

  predicate IsTrailing(c: char) {
    c in ".,!?;:"
  }

  /** An email address can hold all that is printed but brackets, quotes and separators. */
  lemma EmailTokensAre(c: char)
    ensures IsEmailToken(c) <==> '!' <= c <= '~' && c !in "\"(),:;<>[\\]"
  {
  }

  /** The other classes of characters, by their codes. */
  lemma CharacterClasses(c: char)
    ensures IsWordBefore(c) <==> '-' <= c <= '9' || 'A' <= c <= 'Z' || c as int == 95 || 'a' <= c <= 'z'
    ensures IsTrailing(c) <==> c as int in [33, 44, 46, 58, 59, 63]
    ensures EndsUrl(c) <==> c as int in [9, 10, 12, 13, 32, 34, 39, 60, 62]
  {
  }

  /** The prefix stands at `i`, in any letter case. */
  predicate PrefixAt(text: string, i: nat, prefix: string) {
    i + |prefix| <= |text| && forall k | 0 <= k < |prefix| :: LowerAt(text, i + k, prefix[k])
  }

  predicate LowerAt(text: string, i: nat, c: char) {
    i < |text| && LowerAscii(text[i]) == c
  }

  /** The length of the URL prefix at `i`; 0 if there is none. */
  function UrlPrefix(text: string, i: nat): (n: nat)
    ensures n > 0 ==> i + n <= |text|
  {
    if PrefixAt(text, i, HTTPS) then |HTTPS|
    else if PrefixAt(text, i, HTTP) then |HTTP|
    else if PrefixAt(text, i, WWW) then |WWW|
    else 0
  }

  /** How often `c` stands in `text[lo..hi]`. */
  function Occurrences(text: string, c: char, lo: nat, hi: nat): nat
    requires lo <= hi <= |text|
    decreases hi - lo
  {
    if lo == hi then 0 else Occurrences(text, c, lo, hi - 1) + if text[hi - 1] == c then 1 else 0
  }

  /** The longest run from `lo` that a URL can take up. */
  ghost predicate UrlRun(text: string, lo: nat, stop: nat) {
    lo <= stop <= |text| && (forall q | lo <= q < stop :: !EndsUrl(text[q])) && (stop < |text| ==> EndsUrl(text[stop]))
  }

  /** Closing parentheses in excess, counted over the whole run, when the link ends at `end`. */
  ghost function Excess(text: string, lo: nat, stop: nat, punctuated: nat, end: nat): int
    requires lo <= end <= punctuated <= stop <= |text|
  {
    Occurrences(text, ')', lo, stop) - (punctuated - end) - Occurrences(text, '(', lo, stop)
  }

  /** What is cut off the end of a run: all the punctuation that trails, and then closing parentheses as long
      as they are in excess. */
  ghost predicate UrlCut(text: string, lo: nat, stop: nat, punctuated: nat, end: nat) {
    && lo <= end <= punctuated <= stop <= |text|
    && (forall q | punctuated <= q < stop :: IsTrailing(text[q]))
    && (punctuated == lo || !IsTrailing(text[punctuated - 1]))
    && (forall q | end <= q < punctuated :: text[q] == ')')
    && (end < punctuated ==> Excess(text, lo, stop, punctuated, end + 1) > 0)
    && (end == lo || text[end - 1] != ')' || Excess(text, lo, stop, punctuated, end) <= 0)
  }

  ghost predicate UrlSpan(text: string, lo: nat, end: nat) {
    exists stop, punctuated :: UrlRun(text, lo, stop) && UrlCut(text, lo, stop, punctuated, end)
  }

  /** A URL at `start`: a prefix that no word runs into, and something left of the run after it. */
  ghost predicate IsUrl(text: string, start: nat, end: nat) {
    var n := UrlPrefix(text, start);
    n > 0 && (start > 0 ==> !IsWordBefore(text[start - 1])) && start + n < end && UrlSpan(text, start + n, end)
  }

  lemma UrlSpanIsUnique(text: string, lo: nat, end: nat, end': nat)
    requires UrlSpan(text, lo, end) && UrlSpan(text, lo, end')
    ensures end == end'
  {
    var stop, p :| UrlRun(text, lo, stop) && UrlCut(text, lo, stop, p, end);
    var stop', p' :| UrlRun(text, lo, stop') && UrlCut(text, lo, stop', p', end');
    assert stop == stop';
    assert p == p';
  }

  method FindUrlEnd(text: string, lo: nat) returns (end: nat)
    requires lo <= |text|
    ensures UrlSpan(text, lo, end)
  {
    end := lo;
    var opening, closing := 0, 0;
    while end < |text| && !EndsUrl(text[end])
      invariant lo <= end <= |text| && forall q | lo <= q < end :: !EndsUrl(text[q])
      invariant opening == Occurrences(text, '(', lo, end) && closing == Occurrences(text, ')', lo, end)
    {
      if text[end] == '(' {
        opening := opening + 1;
      } else if text[end] == ')' {
        closing := closing + 1;
      }
      end := end + 1;
    }
    ghost var stop := end;
    while end > lo && IsTrailing(text[end - 1])
      invariant lo <= end <= stop && forall q | end <= q < stop :: IsTrailing(text[q])
    {
      end := end - 1;
    }
    ghost var punctuated := end;
    while end > lo && text[end - 1] == ')' && closing > opening
      invariant lo <= end <= punctuated && forall q | end <= q < punctuated :: text[q] == ')'
      invariant closing - opening == Excess(text, lo, stop, punctuated, end)
      invariant end < punctuated ==> Excess(text, lo, stop, punctuated, end + 1) > 0
    {
      end := end - 1;
      closing := closing - 1;
    }
    assert UrlRun(text, lo, stop) && UrlCut(text, lo, stop, punctuated, end);
  }

  // ---------- Email addresses ----------

  /** The longest run of email characters from `start`, without the points that trail. */
  ghost predicate EmailSpan(text: string, start: nat, end: nat) {
    exists stop :: EmailRun(text, start, stop) && EmailCut(text, start, stop, end)
  }

  ghost predicate EmailRun(text: string, start: nat, stop: nat) {
    && start <= stop <= |text| && (forall q | start <= q < stop :: IsEmailToken(text[q]))
    && (stop < |text| ==> !IsEmailToken(text[stop]))
  }

  ghost predicate EmailCut(text: string, start: nat, stop: nat, end: nat) {
    && start <= end <= stop <= |text| && (forall q | end <= q < stop :: text[q] == '.')
    && (end == start || text[end - 1] != '.')
  }

  /** One `@` with something before it, and after it a domain with a point in it and no hyphen at its ends. */
  ghost predicate IsAddress(text: string, start: nat, at: nat, end: nat) {
    && start < at < end - 1 < |text| && text[at] == '@' && (forall q | start <= q < end && q != at :: text[q] != '@')
    && text[at + 1] != '-' && text[end - 1] != '-' && exists dot | at < dot < end :: text[dot] == '.'
  }

  ghost predicate IsEmail(text: string, start: nat, end: nat) {
    && start < |text| && IsAlphanumeric(text[start]) && (start > 0 ==> !IsEmailToken(text[start - 1]))
    && EmailSpan(text, start, end) && exists at :: IsAddress(text, start, at, end)
  }

  lemma EmailSpanIsUnique(text: string, start: nat, end: nat, end': nat)
    requires EmailSpan(text, start, end) && EmailSpan(text, start, end')
    ensures end == end'
  {
    var stop :| EmailRun(text, start, stop) && EmailCut(text, start, stop, end);
    var stop' :| EmailRun(text, start, stop') && EmailCut(text, start, stop', end');
    assert stop == stop';
  }

  /** The first `c` in `text[lo..hi]`, or `hi`. */
  function IndexIn(text: string, c: char, lo: nat, hi: nat): (r: nat)
    requires lo <= hi <= |text|
    ensures lo <= r <= hi && (r < hi ==> text[r] == c) && forall q | lo <= q < r :: text[q] != c
    decreases hi - lo
  {
    if lo == hi || text[lo] == c then lo else IndexIn(text, c, lo + 1, hi)
  }

  method FindEmailEnd(text: string, start: nat) returns (end: nat)
    requires start <= |text|
    ensures EmailSpan(text, start, end)
  {
    end := start;
    while end < |text| && IsEmailToken(text[end])
      invariant start <= end <= |text| && forall q | start <= q < end :: IsEmailToken(text[q])
    {
      end := end + 1;
    }
    ghost var stop := end;
    while end > start && text[end - 1] == '.'
      invariant start <= end <= stop && forall q | end <= q < stop :: text[q] == '.'
    {
      end := end - 1;
    }
    assert EmailRun(text, start, stop) && EmailCut(text, start, stop, end);
  }

  method CheckAddress(text: string, start: nat, end: nat) returns (valid: bool)
    requires start <= end <= |text|
    ensures valid <==> exists at :: IsAddress(text, start, at, end)
  {
    var at := IndexIn(text, '@', start, end);
    if at == end || at == start || at + 1 == end || text[at + 1] == '-' || text[end - 1] == '-' {
      return false;
    }
    var dot, second := IndexIn(text, '.', at + 1, end), IndexIn(text, '@', at + 1, end);
    valid := dot < end && second == end;
    assert valid ==> IsAddress(text, start, at, end) by {
      if valid { assert text[dot] == '.'; }
    }
  }

  // ---------- The first link ----------

  ghost predicate NoLink(text: string, i: nat) {
    forall end :: !IsUrl(text, i, end) && !IsEmail(text, i, end)
  }

  /** A link in place; a URL goes before an email address. */
  ghost predicate IsLink(text: string, f: Found) {
    f.start < f.end <= |text| && match f.kind
      case Autolinked =>
        IsUrl(text, f.start, f.end) &&
        f.destination == (if UrlPrefix(text, f.start) == |WWW| then HTTP else "") + text[f.start..f.end]
      case Email =>
        IsEmail(text, f.start, f.end) && f.destination == text[f.start..f.end] && forall e :: !IsUrl(text, f.start, e)
      case Inline => false
  }

  ghost predicate NoLinkIn(text: string, from: nat, to': nat) {
    forall q: nat | from <= q < to' :: NoLink(text, q)
  }

  method FindUrl(text: string, index: nat) returns (r: Option<Found>)
    requires index < |text|
    ensures r.Some? ==> r.value.start == index && r.value.kind == Autolinked && IsLink(text, r.value)
    ensures r.None? ==> forall end :: !IsUrl(text, index, end)
  {
    var n := UrlPrefix(text, index);
    if n == 0 || (index > 0 && IsWordBefore(text[index - 1])) {
      return None;
    }
    var end := FindUrlEnd(text, index + n);
    if end == index + n {
      forall e ensures !IsUrl(text, index, e) {
        if IsUrl(text, index, e) { UrlSpanIsUnique(text, index + n, end, e); }
      }
      return None;
    }
    r := Some(Found(index, end, Autolinked, (if n == |WWW| then HTTP else "") + text[index..end]));
  }

  method FindEmail(text: string, index: nat) returns (r: Option<Found>)
    requires index < |text| && forall end :: !IsUrl(text, index, end)
    ensures r.Some? ==> r.value.start == index && IsLink(text, r.value)
    ensures r.None? ==> NoLink(text, index)
  {
    if (index > 0 && IsEmailToken(text[index - 1])) || !IsAlphanumeric(text[index]) {
      return None;
    }
    var end := FindEmailEnd(text, index);
    var valid := CheckAddress(text, index, end);
    if valid {
      return Some(Found(index, end, Email, text[index..end]));
    }
    forall e ensures !IsEmail(text, index, e) {
      if IsEmail(text, index, e) { EmailSpanIsUnique(text, index, end, e); }
    }
    r := None;
  }

  method FindHere(text: string, index: nat) returns (r: Option<Found>)
    requires index < |text|
    ensures r.Some? ==> r.value.start == index && IsLink(text, r.value)
    ensures r.None? ==> NoLink(text, index)
  {
    r := FindUrl(text, index);
    if r.None? {
      r := FindEmail(text, index);
    }
  }

  /** The first link at or after `from`. */
  method FindBareAutolink(text: string, from: nat) returns (r: Option<Found>)
    requires from <= |text|
    ensures r.Some? ==> from <= r.value.start && IsLink(text, r.value) && NoLinkIn(text, from, r.value.start)
    ensures r.None? ==> NoLinkIn(text, from, |text|)
  {
    var index := from;
    while index < |text|
      invariant from <= index <= |text| && NoLinkIn(text, from, index)
    {
      r := FindHere(text, index);
      if r.Some? {
        return;
      }
      NoLinkGrows(text, from, index);
      index := index + 1;
    }
    r := None;
  }

  lemma NoLinkGrows(text: string, from: nat, index: nat)
    requires NoLinkIn(text, from, index) && NoLink(text, index)
    ensures NoLinkIn(text, from, index + 1)
  {
    forall q: nat | from <= q < index + 1 ensures NoLink(text, q) { assert q < index || q == index; }
  }

  lemma LinkIsUnique(text: string, f: Found, g: Found)
    requires IsLink(text, f) && IsLink(text, g) && f.start == g.start
    ensures f == g
  {
    if f.kind == Autolinked {
      assert g.kind == Autolinked;
      UrlSpanIsUnique(text, f.start + UrlPrefix(text, f.start), f.end, g.end);
    } else {
      assert g.kind == Email;
      EmailSpanIsUnique(text, f.start, f.end, g.end);
    }
  }
}
