/** What becomes of a well-nested message, said of its own events (app/ui/src/chat_view.rs): which links and
    images are kept and where they lead, and which links are made of its text and where those lead. */
module LinkTargets {
  import opened Autolink
  import opened Decimals
  import opened Lists
  import opened Options
  import opened Strings
  import opened Markdown

  // ---------- Destinations ----------

  predicate SlashOrBackslash(c: char) {
    c == '/' || c == '\\'
  }

  /** What a browser may take for another host: `//`, `/\`, and for a link also `\`. */
  predicate LeavesHost(t: string) {
    |t| > 1 && t[0] == '/' && SlashOrBackslash(t[1])
  }

  /** The text before the first colon, in any letter case. */
  ghost predicate SchemeIsOneOf(t: string, a: string, b: string, c: string) {
    exists k :: IsAt(t, k, ':') && Without(t[..k], ':')
                && (SameButForCase(t[..k], a) || SameButForCase(t[..k], b) || SameButForCase(t[..k], c))
  }

  /** A trimmed destination that a link may lead to: a fragment, a place on the same host, or a web or mail
      address. */
  ghost predicate MayLead(t: string) {
    && t != ""
    && (t[0] == '#' || (Without(t, ':') && !LeavesHost(t) && t[0] != '\\') || SchemeIsOneOf(t, "http", "https", "mailto"))
  }

  /** One that an image may be shown from: on the same host. */
  ghost predicate SameHost(t: string) {
    && t != "" && !LeavesHost(t)
    && (t[0] == '/'
        || (t[0] == '.' && (IsAt(t, 1, '/') || (IsAt(t, 1, '.') && IsAt(t, 2, '/'))))
        || (t[0] != '\\' && Without(t, ':')))
  }

  lemma {:induction false} SchemeSplits(t: string)
    ensures Scheme(t).None? <==> Without(t, ':')
    ensures Scheme(t).Some? ==> IsAt(t, |Scheme(t).value|, ':') && t[..|Scheme(t).value|] == Scheme(t).value
                                && Without(Scheme(t).value, ':')
  {
    if t != "" && t[0] != ':' {
      SchemeSplits(t[1..]);
      assert t == [t[0]] + t[1..];
      if Without(t[1..], ':') {
        WithoutJoin([t[0]], t[1..], ':');
      } else {
        assert exists i :: IsAt(t[1..], i, ':') && IsAt(t, i + 1, ':');
      }
      if Scheme(t).Some? { WithoutJoin([t[0]], Scheme(t[1..]).value, ':'); }
    } else if t != "" {
      assert IsAt(t, 0, ':');
    }
  }

  lemma FirstColon(t: string, k: int, s: string)
    requires IsAt(t, k, ':') && Without(t[..k], ':') && IsAt(t, |s|, ':') && t[..|s|] == s && Without(s, ':')
    ensures s == t[..k]
  {
    if k < |s| { assert IsAt(s, k, ':'); }
    if |s| < k { assert IsAt(t[..k], |s|, ':'); }
  }

  lemma TwoCharacters(t: string, a: char, b: char)
    ensures Begins(t, [a, b]) <==> |t| > 1 && t[0] == a && t[1] == b
  {
    if Begins(t, [a, b]) { assert SameAt(t, [a, b], 0) && SameAt(t, [a, b], 1); }
  }

  lemma ThreeCharacters(t: string, a: char, b: char, c: char)
    ensures Begins(t, [a, b, c]) <==> |t| > 2 && t[0] == a && t[1] == b && t[2] == c
  {
    if Begins(t, [a, b, c]) { assert SameAt(t, [a, b, c], 0) && SameAt(t, [a, b, c], 1) && SameAt(t, [a, b, c], 2); }
  }

  /** The code's two tests of a destination are these. */
  lemma SafeUrlsAre(url: string)
    ensures IsSafeMarkdownUrl(url) <==> MayLead(Trim(url))
    ensures IsSafeSameOriginImageUrl(url) <==> SameHost(Trim(url))
  {
    var t := Trim(url);
    TwoCharacters(t, '/', '/');
    TwoCharacters(t, '/', '\\');
    TwoCharacters(t, '.', '/');
    ThreeCharacters(t, '.', '.', '/');
    SchemeSplits(t);
    SchemeDecides(t);
  }

  lemma SchemeDecides(t: string)
    ensures SchemeIsOneOf(t, "http", "https", "mailto") <==>
            Scheme(t).Some? && var s := Scheme(t).value;
            EqIgnoreAsciiCase(s, "https") || EqIgnoreAsciiCase(s, "http") || EqIgnoreAsciiCase(s, "mailto")
  {
    SchemeSplits(t);
    if Scheme(t).Some? {
      var s := Scheme(t).value;
      EqIgnoresCase(s, "http");
      EqIgnoresCase(s, "https");
      EqIgnoresCase(s, "mailto");
      forall k | IsAt(t, k, ':') && Without(t[..k], ':') ensures t[..k] == s { FirstColon(t, k, s); }
    }
  }

  // ---------- The first pass ----------

  /** How an open tag will be closed, if at all, and whether it counts as a link. */
  datatype Closing = Closing(end: Option<TagEnd>, link: bool)

  ghost predicate InLink(open: List<Closing>) {
    open.Cons? && (open.head.link || InLink(open.tail))
  }

  /** An image on another host that may be linked to, outside all links: it is shown as a link. */
  ghost predicate BecomesLink(destination: string, open: List<Closing>) {
    !SameHost(Trim(destination)) && MayLead(Trim(destination)) && !InLink(open)
  }

  /** What is written for an event. */
  ghost function Written(message: nat, e: Event, open: List<Closing>): Option<Event> {
    match e
    case Start(Link(kind, destination, title, id)) =>
      if kind == Email then Some(e)
      else if MayLead(Trim(destination)) then Some(Start(Link(kind, Trim(destination), title, id)))
      else None
    case Start(Image(kind, destination, title, id)) =>
      if SameHost(Trim(destination)) then Some(e)
      else if BecomesLink(destination, open) then Some(Start(Link(kind, destination, title, id)))
      else None
    case Start(FootnoteDefinition(name)) => Some(Start(FootnoteDefinition(FootnoteName(message, name))))
    case End(_) => if open.Cons? && open.head.end.Some? then Some(End(open.head.end.value)) else None
    case Html(html) => Some(Text(html))
    case InlineHtml(html) => Some(Text(html))
    case FootnoteReference(name) => Some(FootnoteReference(FootnoteName(message, name)))
    case _ => Some(e)
  }

  /** How a tag that starts will be closed: as what it is written as, and not if it is not written. */
  ghost function ClosedAs(tag: Tag, open: List<Closing>): Closing {
    match tag
    case Link(kind, destination, _, _) =>
      Closing(if kind == Email || MayLead(Trim(destination)) then Some(LinkEnd) else None, true)
    case Image(_, destination, _, _) =>
      if SameHost(Trim(destination)) then Closing(Some(ImageEnd), false)
      else if BecomesLink(destination, open) then Closing(Some(LinkEnd), true)
      else Closing(None, false)
    case CodeBlock(_) => Closing(Some(CodeBlockEnd), false)
    case FootnoteDefinition(_) => Closing(Some(FootnoteDefinitionEnd), false)
    case OtherTag(name) => Closing(Some(OtherEnd(name)), false)
  }

  ghost function OpenAfter(e: Event, open: List<Closing>): List<Closing> {
    match e
    case Start(tag) => Cons(ClosedAs(tag, open), open)
    case End(_) => if open.Cons? then open.tail else Nil
    case _ => open
  }

  /** The stream that is written. */
  ghost function Kept(message: nat, events: List<Event>, open: List<Closing>): List<Event>
    decreases events
  {
    match events
    case Nil => Nil
    case Cons(e, rest) => Prepend(Written(message, e, open), Kept(message, rest, OpenAfter(e, open)))
  }

  function ClosingOf(f: Frame): Closing {
    match f
    case LinkFrame(kept) => Closing(if kept then Some(LinkEnd) else None, true)
    case ImageFrame(AsImage) => Closing(Some(ImageEnd), false)
    case ImageFrame(AsLink) => Closing(Some(LinkEnd), true)
    case ImageFrame(AsText) => Closing(None, false)
    case PlainFrame(end) => Closing(Some(end), false)
  }

  function Closings(fs: Frames): List<Closing> {
    match fs case Nil => Nil case Cons(f, rest) => Cons(ClosingOf(f), Closings(rest))
  }

  lemma {:induction false} DepthIsInLink(fs: Frames)
    ensures InLink(Closings(fs)) <==> DepthOf(fs) > 0
  {
    if fs.Cons? { DepthIsInLink(fs.tail); }
  }

  lemma OpensAs(fs: Frames, tag: Tag)
    ensures ClosingOf(FrameOf(tag, DepthOf(fs))) == ClosedAs(tag, Closings(fs))
  {
    DepthIsInLink(fs);
    if tag.Link? || tag.Image? { SafeUrlsAre(tag.destination); }
  }

  lemma StartIsWritten(message: nat, fs: Frames, tag: Tag)
    ensures Rewritten(message, ModesOf(fs), Start(tag)) == Written(message, Start(tag), Closings(fs))
  {
    DepthIsInLink(fs);
    if tag.Link? || tag.Image? { SafeUrlsAre(tag.destination); }
  }

  lemma EndIsWritten(message: nat, f: Frame, rest: Frames)
    requires Proper(Cons(f, rest))
    ensures Rewritten(message, ModesOf(Cons(f, rest)), End(InOf(f))) == Written(message, End(InOf(f)), Closings(Cons(f, rest)))
  {
  }

  lemma EventIsWritten(message: nat, fs: Frames, e: Event)
    requires Proper(fs) && (e.End? ==> fs.Cons? && InOf(fs.head) == e.end)
    ensures Rewritten(message, ModesOf(fs), e) == Written(message, e, Closings(fs))
    ensures Closings(NextFrames(fs, e)) == OpenAfter(e, Closings(fs))
  {
    match e
    case Start(tag) =>
      StartIsWritten(message, fs, tag);
      OpensAs(fs, tag);
    case End(_) => EndIsWritten(message, fs.head, fs.tail);
    case _ =>
  }

  /** What comes out of the first pass of a well-nested stream: a link keeps its kind, title and id, and leads
      to its trimmed destination, or to the address itself for email; an image stays as it is if it is on the
      same host, and is a link to its own destination if it is elsewhere and outside all links; what is not
      kept leaves only what is inside; all the rest stays, footnotes under the message's own names. */
  lemma {:induction false} RewriteIsKept(message: nat, fs: Frames, events: List<Event>)
    requires Proper(fs) && Nested(events, Inside(fs))
    ensures Rewrite(message, ModesOf(fs), events) == Kept(message, events, Closings(fs))
    decreases events
  {
    if events.Cons? {
      var e := events.head;
      ModesFollow(fs, e);
      EventIsWritten(message, fs, e);
      RewriteIsKept(message, NextFrames(fs, e), events.tail);
    }
  }

  // ---------- The second pass ----------

  /** A text stands at `i`, in any letter case. */
  predicate StandsAt(text: string, i: nat, prefix: string) {
    i + |prefix| <= |text| && SameButForCase(text[i..i + |prefix|], prefix)
  }

  lemma PrefixStands(text: string, i: nat, prefix: string)
    requires forall k | 0 <= k < |prefix| :: LowerAscii(prefix[k]) == prefix[k]
    ensures PrefixAt(text, i, prefix) <==> StandsAt(text, i, prefix)
  {
    if i + |prefix| <= |text| {
      var part := text[i..i + |prefix|];
      EqIgnoresCase(part, prefix);
      if PrefixAt(text, i, prefix) {
        forall k | 0 <= k < |part| ensures LowerAscii(part[k]) == LowerAscii(prefix[k]) {
          assert LowerAt(text, i + k, prefix[k]);
        }
      }
      if EqIgnoreAsciiCase(part, prefix) {
        forall k | 0 <= k < |prefix| ensures LowerAt(text, i + k, prefix[k]) { assert part[k] == text[i + k]; }
      }
    }
  }

  /** The prefixes that a URL can start with. */
  lemma UrlPrefixIs(text: string, i: nat)
    ensures UrlPrefix(text, i) == 8 <==> StandsAt(text, i, "https://")
    ensures UrlPrefix(text, i) == 7 <==> StandsAt(text, i, "http://")
    ensures UrlPrefix(text, i) == 4 <==> StandsAt(text, i, "www.")
    ensures UrlPrefix(text, i) in {0, 4, 7, 8}
  {
    PrefixStands(text, i, "https://");
    PrefixStands(text, i, "http://");
    PrefixStands(text, i, "www.");
    if PrefixAt(text, i, HTTP) { assert LowerAt(text, i + 0, 'h') && LowerAt(text, i + 4, ':'); }
    if PrefixAt(text, i, HTTPS) { assert LowerAt(text, i + 0, 'h') && LowerAt(text, i + 4, 's'); }
    if PrefixAt(text, i, WWW) { assert LowerAt(text, i + 0, 'w'); }
  }

  /** Where a bare link leads: an email address to itself, a URL to itself, after `http://` if it starts with
      `www.`. */
  predicate LeadsTo(kind: LinkType, shown: string, destination: string) {
    if kind == Autolinked && StandsAt(shown, 0, "www.") then destination == "http://" + shown
    else destination == shown
  }

  /** A piece of a text: without links, or a link. */
  datatype Piece = PlainText(text: string) | BareLink(kind: LinkType, text: string, destination: string)

  /** The piece stands at `at`; no link starts in a plain text, and a link leads where it should. */
  ghost predicate PieceAt(text: string, at: nat, p: Piece) {
    OccursAt(text, at, p.text) && match p
      case PlainText(t) => t != "" && NoLinkIn(text, at, at + |t|)
      case BareLink(kind, t, destination) =>
        LeadsTo(kind, t, destination) && IsLink(text, Found(at, at + |t|, kind, destination))
  }

  ghost function StandsIn(text: string): (nat, Piece) -> bool {
    (at: nat, p) => PieceAt(text, at, p)
  }

  /** Pieces in turn from `at` on up to `size`, with no two plain texts next to each other. */
  ghost predicate Covers(at: nat, size: nat, pieces: List<Piece>, stands: (nat, Piece) -> bool)
    decreases pieces
  {
    match pieces
    case Nil => at == size
    case Cons(p, rest) =>
      stands(at, p) && (p.PlainText? && rest.Cons? ==> rest.head.BareLink?) && Covers(at + |p.text|, size, rest, stands)
  }

  function PieceEvents(pieces: List<Piece>): List<Event> {
    match pieces
    case Nil => Nil
    case Cons(PlainText(t), rest) => Cons(Text(t), PieceEvents(rest))
    case Cons(BareLink(kind, t, destination), rest) =>
      Cons(Start(Link(kind, destination, "", "")), Cons(Text(t), Cons(End(LinkEnd), PieceEvents(rest))))
  }

  /** The events of a text: it is all there, cut into links and texts without links. */
  ghost predicate BareLinked(text: string, events: List<Event>) {
    exists pieces :: events == PieceEvents(pieces) && Covers(0, |text|, pieces, StandsIn(text))
  }

  lemma FoundLeadsTo(text: string, f: Found)
    requires IsLink(text, f)
    ensures LeadsTo(f.kind, text[f.start..f.end], f.destination)
  {
    var shown := text[f.start..f.end];
    if f.kind == Autolinked {
      UrlPrefixIs(text, f.start);
      if |shown| >= 4 { assert shown[0..4] == text[f.start..f.start + 4]; }
      assert "" + shown == shown;
    }
  }

  ghost predicate Allows(text: string, stands: (nat, Piece) -> bool) {
    forall at: nat, p {:trigger PieceAt(text, at, p)} :: PieceAt(text, at, p) ==> stands(at, p)
  }

  lemma FoundStands(text: string, f: Found, t: string, stands: (nat, Piece) -> bool)
    requires IsLink(text, f) && t == text[f.start..f.end] && Allows(text, stands)
    ensures f.start + |t| == f.end && stands(f.start, BareLink(f.kind, t, f.destination))
  {
    FoundLeadsTo(text, f);
    OccursIsSlice(text, f.start, t);
    assert PieceAt(text, f.start, BareLink(f.kind, t, f.destination));
  }

  lemma TextStands(text: string, cursor: nat, start: nat, t: string, stands: (nat, Piece) -> bool)
    requires cursor < start <= |text| && NoLinkIn(text, cursor, start) && t == text[cursor..start] && Allows(text, stands)
    ensures cursor + |t| == start && stands(cursor, PlainText(t))
  {
    OccursIsSlice(text, cursor, t);
    assert PieceAt(text, cursor, PlainText(t));
  }

  function WithText(t: string, pieces: List<Piece>): List<Piece> {
    if t == "" then pieces else Cons(PlainText(t), pieces)
  }

  lemma TextCovers(t: string, cursor: nat, start: nat, size: nat, pieces: List<Piece>, rest: List<Event>,
                   stands: (nat, Piece) -> bool)
    requires cursor + |t| == start && Covers(start, size, pieces, stands) && rest == PieceEvents(pieces)
    requires t != "" ==> stands(cursor, PlainText(t)) && (pieces.Cons? ==> pieces.head.BareLink?)
    ensures Covers(cursor, size, WithText(t, pieces), stands) && TextIfAny(t, rest) == PieceEvents(WithText(t, pieces))
  {
  }

  lemma LinkCovers(p: Piece, start: nat, size: nat, pieces: List<Piece>, rest: List<Event>, stands: (nat, Piece) -> bool)
    requires p.BareLink? && stands(start, p) && Covers(start + |p.text|, size, pieces, stands) && rest == PieceEvents(pieces)
    ensures Covers(start, size, Cons(p, pieces), stands)
    ensures PieceEvents(Cons(p, pieces)) ==
            Cons(Start(Link(p.kind, p.destination, "", "")), Cons(Text(p.text), Cons(End(LinkEnd), rest)))
  {
  }

  lemma BothCover(t: string, p: Piece, cursor: nat, size: nat, pieces: List<Piece>, rest: List<Event>,
                  stands: (nat, Piece) -> bool)
    requires p.BareLink? && stands(cursor + |t|, p) && (t != "" ==> stands(cursor, PlainText(t)))
    requires Covers(cursor + |t| + |p.text|, size, pieces, stands) && rest == PieceEvents(pieces)
    ensures Covers(cursor, size, WithText(t, Cons(p, pieces)), stands)
    ensures PieceEvents(WithText(t, Cons(p, pieces))) ==
            TextIfAny(t, Cons(Start(Link(p.kind, p.destination, "", "")), Cons(Text(p.text), Cons(End(LinkEnd), rest))))
  {
    LinkCovers(p, cursor + |t|, size, pieces, rest, stands);
    TextCovers(t, cursor, cursor + |t|, size, Cons(p, pieces), PieceEvents(Cons(p, pieces)), stands);
  }

  lemma {:induction false} ChainIsBare(text: string, cursor: nat, founds: List<Found>, stands: (nat, Piece) -> bool)
      returns (pieces: List<Piece>)
    requires Chain(text, cursor, founds) && cursor <= |text| && Allows(text, stands)
    ensures EventsOf(text, cursor, founds) == PieceEvents(pieces) && Covers(cursor, |text|, pieces, stands)
    decreases founds
  {
    match founds
    case Nil =>
      pieces := WithText(text[cursor..], Nil);
      assert text[cursor..|text|] == text[cursor..];
      if cursor < |text| { TextStands(text, cursor, |text|, text[cursor..], stands); }
      TextCovers(text[cursor..], cursor, |text|, |text|, Nil, Nil, stands);
    case Cons(f, more) =>
      var later := ChainIsBare(text, f.end, more, stands);
      FoundStands(text, f, text[f.start..f.end], stands);
      if cursor < f.start { TextStands(text, cursor, f.start, text[cursor..f.start], stands); }
      pieces := PutLink(text, cursor, f, later, EventsOf(text, f.end, more), stands);
  }

  lemma PutLink(text: string, cursor: nat, f: Found, later: List<Piece>, rest: List<Event>, stands: (nat, Piece) -> bool)
      returns (pieces: List<Piece>)
    requires cursor <= f.start < f.end <= |text| && stands(f.start, BareLink(f.kind, text[f.start..f.end], f.destination))
    requires cursor < f.start ==> stands(cursor, PlainText(text[cursor..f.start]))
    requires Covers(f.end, |text|, later, stands) && rest == PieceEvents(later)
    ensures LinkEvents(text, cursor, f, rest) == PieceEvents(pieces) && Covers(cursor, |text|, pieces, stands)
  {
    var before, p := text[cursor..f.start], BareLink(f.kind, text[f.start..f.end], f.destination);
    pieces := WithText(before, Cons(p, later));
    BothCover(before, p, cursor, |text|, later, rest, stands);
  }

  lemma LinkedIsBare(text: string, events: List<Event>)
    requires Linked(text, 0, events)
    ensures BareLinked(text, events)
  {
    var founds :| Chain(text, 0, founds) && events == EventsOf(text, 0, founds);
    var pieces := ChainIsBare(text, 0, founds, StandsIn(text));
  }

  /** A stream with the bare links of its text made links wherever no link, image or code block is open, and
      all else as it is. */
  ghost predicate WithBareLinks(open: List<TagEnd>, events: List<Event>, out: List<Event>)
    decreases events
  {
    match events
    case Nil => out == Nil
    case Cons(e, rest) =>
      if e.Text? && !Has(open, LinkEnd) && !Has(open, ImageEnd) && !Has(open, CodeBlockEnd) then
        exists now, later :: out == Append(now, later) && BareLinked(e.text, now) && WithBareLinks(open, rest, later)
      else out.Cons? && out.head == e && WithBareLinks(Opened(e, open), rest, out.tail)
  }

  lemma {:induction false} PassMakesBareLinks(open: List<TagEnd>, events: List<Event>, out: List<Event>)
    requires LinkedWherePlain(open, events, out)
    ensures WithBareLinks(open, events, out)
    decreases events
  {
    match events
    case Nil =>
    case Cons(e, rest) =>
      var now, later :| out == Append(now, later) && Turned(Plain(open), e, now) && LinkedWherePlain(Opened(e, open), rest, later);
      PassMakesBareLinks(Opened(e, open), rest, later);
      if e.Text? && Plain(open) {
        LinkedIsBare(e.text, now);
      } else {
        assert Append(Nil, later) == later && out == Cons(e, later);
      }
  }

  // ---------- Both passes ----------

  /** What is rendered of a well-nested stream: the links and images that are kept, where they lead, and
      besides them the bare links of the text outside links, images and code blocks. */
  lemma RenderedLeads(message: nat, events: List<Event>, out: List<Event>)
    requires Nested(events, Nil) && Passed(Depths(0, 0, 0), Rewrite(message, Modes([], [], 0), events), out)
    ensures WithBareLinks(Nil, Kept(message, events, Nil), out)
  {
    var middle := Rewrite(message, Modes([], [], 0), events);
    assert ModesOf(Nil) == Modes([], [], 0) && Inside(Nil) == Nil == Outside(Nil) && DepthsOf(Nil) == Depths(0, 0, 0);
    RewriteKeepsNesting(message, Nil, events);
    RewriteIsKept(message, Nil, events);
    CountersTellWhatIsOpen(Nil, middle, out);
    PassMakesBareLinks(Nil, middle, out);
  }
}
