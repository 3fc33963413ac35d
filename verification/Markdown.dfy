/** The two passes over the events of a parsed message (app/ui/src/chat_view.rs). The first drops unsafe
    links, decides what becomes of images and turns raw HTML into text; the second makes links of bare URLs
    and email addresses in plain text. The Markdown parser and the HTML writer are not part of this model. */
module Markdown {
  import opened Autolink
  import opened Decimals
  import opened Lists
  import opened Options
  import opened Strings

  datatype Tag =
    | Link(kind: LinkType, destination: string, title: string, id: string)
    | Image(kind: LinkType, destination: string, title: string, id: string)
    | CodeBlock(info: string)
    | FootnoteDefinition(name: string)
    | OtherTag(name: string)

  datatype TagEnd = LinkEnd | ImageEnd | CodeBlockEnd | FootnoteDefinitionEnd | OtherEnd(name: string)

  datatype Event =
    | Start(tag: Tag)
    | End(end: TagEnd)
    | Text(text: string)
    | Html(html: string)
    | InlineHtml(html: string)
    | FootnoteReference(name: string)
    | OtherEvent(content: string)

  function EndOf(tag: Tag): TagEnd {
    match tag
    case Link(_, _, _, _) => LinkEnd
    case Image(_, _, _, _) => ImageEnd
    case CodeBlock(_) => CodeBlockEnd
    case FootnoteDefinition(_) => FootnoteDefinitionEnd
    case OtherTag(name) => OtherEnd(name)
  }

  // ---------- What is said of a stream of events ----------

  /** Every tag is closed, the innermost first; `open` are those open so far, the innermost at the head. */
  ghost predicate Nested(events: List<Event>, open: List<TagEnd>)
    decreases events
  {
    match events
    case Nil => open == Nil
    case Cons(e, rest) =>
      match e
      case Start(tag) => Nested(rest, Cons(EndOf(tag), open))
      case End(end) => open.Cons? && open.head == end && Nested(rest, open.tail)
      case _ => Nested(rest, open)
  }

  ghost predicate Has<T>(list: List<T>, x: T) {
    list.Cons? && (list.head == x || Has(list.tail, x))
  }

  function Opened(e: Event, open: List<TagEnd>): List<TagEnd> {
    match e
    case Start(tag) => Cons(EndOf(tag), open)
    case End(_) => if open.Cons? then open.tail else Nil
    case _ => open
  }

  /** No link is opened inside a link. */
  ghost predicate LinksApart(events: List<Event>, open: List<TagEnd>)
    decreases events
  {
    match events
    case Nil => true
    case Cons(e, rest) =>
      && (e.Start? && e.tag.Link? ==> !Has(open, LinkEnd))
      && LinksApart(rest, Opened(e, open))
  }

  /** And none inside an image either. */
  ghost predicate LinksOutsideImages(events: List<Event>, open: List<TagEnd>)
    decreases events
  {
    match events
    case Nil => true
    case Cons(e, rest) =>
      && (e.Start? && e.tag.Link? ==> !Has(open, LinkEnd) && !Has(open, ImageEnd))
      && LinksOutsideImages(rest, Opened(e, open))
  }

  /** All the text, raw HTML included. */
  function TextOf(events: List<Event>): string {
    match events
    case Nil => ""
    case Cons(e, rest) =>
      (match e case Text(text) => text case Html(html) => html case InlineHtml(html) => html case _ => "") + TextOf(rest)
  }

  ghost predicate NoRawHtml(events: List<Event>) {
    events.Cons? ==> !events.head.Html? && !events.head.InlineHtml? && NoRawHtml(events.tail)
  }

  // ---------- Safe destinations ----------

  function Scheme(url: string): Option<string> {
    if url == "" then None
    else if url[0] == ':' then Some("")
    else match Scheme(url[1..]) case None => None case Some(rest) => Some([url[0]] + rest)
  }

  predicate IsSafeMarkdownUrl(url: string) {
    var t := Trim(url);
    && t != ""
    && (t[0] == '#'
        || (Scheme(t).None? && !Begins(t, "//") && !Begins(t, "/\\") && t[0] != '\\')
        || (Scheme(t).Some? && var s := Scheme(t).value;
            EqIgnoreAsciiCase(s, "https") || EqIgnoreAsciiCase(s, "http") || EqIgnoreAsciiCase(s, "mailto")))
  }

  predicate IsSafeSameOriginImageUrl(url: string) {
    var t := Trim(url);
    && t != "" && !Begins(t, "//") && !Begins(t, "/\\")
    && (t[0] == '/' || Begins(t, "./") || Begins(t, "../") || (t[0] != '\\' && Scheme(t).None?))
  }

  /** What may be written as a link or an image. */
  predicate SafeTag(tag: Tag) {
    match tag
    case Link(kind, destination, _, _) => kind == Email || IsSafeMarkdownUrl(destination)
    case Image(_, destination, _, _) => IsSafeSameOriginImageUrl(destination)
    case _ => true
  }

  ghost predicate AllSafe(events: List<Event>) {
    events.Cons? ==> (events.head.Start? ==> SafeTag(events.head.tag)) && AllSafe(events.tail)
  }

  lemma TrimTwice(s: string)
    ensures Trim(Trim(s)) == Trim(s)
  {
    var a := TrimStart(s);
    var _ := TrimStartSplits(s);
    var w := TrimEndSplits(a);
    assert Trim(s) != "" ==> Trim(s)[0] == (Trim(s) + w)[0];
  }

  // ---------- The first pass ----------

  datatype ImageMode = AsImage | AsLink | AsText

  /** For each open link whether it is kept, for each open image what has become of it, the latest last;
      and how many links are open, dropped ones included. */
  datatype Modes = Modes(links: seq<bool>, images: seq<ImageMode>, depth: nat)

  function Dec(n: nat): nat {
    if n > 0 then n - 1 else 0
  }

  function Last<T>(s: seq<T>, default': T): T {
    if s == [] then default' else s[|s| - 1]
  }

  function Popped<T>(s: seq<T>): seq<T> {
    if s == [] then [] else s[..|s| - 1]
  }

  function FootnoteName(message: nat, name: string): string {
    "ains-footnote-" + Decimal(message) + "-" + name
  }

  function ModeOf(destination: string, depth: nat): ImageMode {
    if IsSafeSameOriginImageUrl(destination) then AsImage
    else if IsSafeMarkdownUrl(destination) && depth == 0 then AsLink
    else AsText
  }

  function KeepsLink(kind: LinkType, destination: string): bool {
    kind == Email || IsSafeMarkdownUrl(destination)
  }

  function NextModes(m: Modes, e: Event): Modes {
    match e
    case Start(Link(kind, destination, _, _)) => Modes(m.links + [KeepsLink(kind, destination)], m.images, m.depth + 1)
    case End(LinkEnd) => Modes(Popped(m.links), m.images, Dec(m.depth))
    case Start(Image(_, destination, _, _)) =>
      var mode := ModeOf(destination, m.depth);
      Modes(m.links, m.images + [mode], if mode == AsLink then m.depth + 1 else m.depth)
    case End(ImageEnd) =>
      Modes(m.links, Popped(m.images), if Last(m.images, AsText) == AsLink then Dec(m.depth) else m.depth)
    case _ => m
  }

  function Rewritten(message: nat, m: Modes, e: Event): Option<Event> {
    match e
    case Html(html) => Some(Text(html))
    case InlineHtml(html) => Some(Text(html))
    case FootnoteReference(name) => Some(FootnoteReference(FootnoteName(message, name)))
    case Start(FootnoteDefinition(name)) => Some(Start(FootnoteDefinition(FootnoteName(message, name))))
    case Start(Link(kind, destination, title, id)) =>
      if KeepsLink(kind, destination) then
        Some(Start(Link(kind, if kind == Email then destination else Trim(destination), title, id)))
      else None
    case End(LinkEnd) => if Last(m.links, false) then Some(End(LinkEnd)) else None
    case Start(Image(kind, destination, title, id)) =>
      (match ModeOf(destination, m.depth)
       case AsImage => Some(e)
       case AsLink => Some(Start(Link(kind, destination, title, id)))
       case AsText => None)
    case End(ImageEnd) =>
      (match Last(m.images, AsText)
       case AsImage => Some(End(ImageEnd))
       case AsLink => Some(End(LinkEnd))
       case AsText => None)
    case _ => Some(e)
  }

  function Prepend(e: Option<Event>, rest: List<Event>): List<Event> {
    if e.Some? then Cons(e.value, rest) else rest
  }

  function Rewrite(message: nat, m: Modes, events: List<Event>): List<Event>
    decreases events
  {
    match events
    case Nil => Nil
    case Cons(e, rest) => Prepend(Rewritten(message, m, e), Rewrite(message, NextModes(m, e), rest))
  }

  /** The first pass as it runs, event by event. */
  class LinkPass {
    const message: nat
    var linkModes: seq<bool>
    var imageModes: seq<ImageMode>
    var linkDepth: nat

    function Current(): Modes
      reads this
    {
      Modes(linkModes, imageModes, linkDepth)
    }

    constructor (message: nat)
      ensures this.message == message && Current() == Modes([], [], 0)
    {
      this.message, linkModes, imageModes, linkDepth := message, [], [], 0;
    }

    method Filter(e: Event) returns (out: Option<Event>)
      modifies this
      ensures Current() == NextModes(old(Current()), e) && out == Rewritten(message, old(Current()), e)
    {
      match e
      case Html(html) => out := Some(Text(html));
      case InlineHtml(html) => out := Some(Text(html));
      case FootnoteReference(name) => out := Some(FootnoteReference(FootnoteName(message, name)));
      case Start(FootnoteDefinition(name)) => out := Some(Start(FootnoteDefinition(FootnoteName(message, name))));
      case Start(Link(kind, destination, title, id)) =>
        var isSafe := kind == Email || IsSafeMarkdownUrl(destination);
        linkModes := linkModes + [isSafe];
        linkDepth := linkDepth + 1;
        out := if isSafe then Some(Start(Link(kind, if kind == Email then destination else Trim(destination), title, id)))
               else None;
      case End(LinkEnd) =>
        linkDepth := Dec(linkDepth);
        out := if Last(linkModes, false) then Some(End(LinkEnd)) else None;
        linkModes := Popped(linkModes);
      case Start(Image(kind, destination, title, id)) =>
        var mode := if IsSafeSameOriginImageUrl(destination) then AsImage
                    else if IsSafeMarkdownUrl(destination) && linkDepth == 0 then AsLink
                    else AsText;
        imageModes := imageModes + [mode];
        match mode {
          case AsImage => out := Some(e);
          case AsLink =>
            linkDepth := linkDepth + 1;
            out := Some(Start(Link(kind, destination, title, id)));
          case AsText => out := None;
        }
      case End(ImageEnd) =>
        var mode := Last(imageModes, AsText);
        imageModes := Popped(imageModes);
        match mode {
          case AsImage => out := Some(End(ImageEnd));
          case AsLink =>
            linkDepth := Dec(linkDepth);
            out := Some(End(LinkEnd));
          case AsText => out := None;
        }
      case _ => out := Some(e);
    }
  }

  // ---------- The first pass keeps the nesting ----------

  /** An open tag together with the decision made when it was opened. */
  datatype Frame = LinkFrame(kept: bool) | ImageFrame(mode: ImageMode) | PlainFrame(end: TagEnd)

  type Frames = List<Frame>

  function InOf(f: Frame): TagEnd {
    match f
    case LinkFrame(_) => LinkEnd
    case ImageFrame(_) => ImageEnd
    case PlainFrame(end) => end
  }

  function Inside(fs: Frames): List<TagEnd> {
    match fs case Nil => Nil case Cons(f, rest) => Cons(InOf(f), Inside(rest))
  }

  /** The tags open in the output. */
  function Outside(fs: Frames): List<TagEnd> {
    match fs
    case Nil => Nil
    case Cons(LinkFrame(kept), rest) => if kept then Cons(LinkEnd, Outside(rest)) else Outside(rest)
    case Cons(ImageFrame(AsImage), rest) => Cons(ImageEnd, Outside(rest))
    case Cons(ImageFrame(AsLink), rest) => Cons(LinkEnd, Outside(rest))
    case Cons(ImageFrame(AsText), rest) => Outside(rest)
    case Cons(PlainFrame(end), rest) => Cons(end, Outside(rest))
  }

  function LinksOf(fs: Frames): seq<bool> {
    match fs
    case Nil => []
    case Cons(LinkFrame(kept), rest) => LinksOf(rest) + [kept]
    case Cons(_, rest) => LinksOf(rest)
  }

  function ImagesOf(fs: Frames): seq<ImageMode> {
    match fs
    case Nil => []
    case Cons(ImageFrame(mode), rest) => ImagesOf(rest) + [mode]
    case Cons(_, rest) => ImagesOf(rest)
  }

  function DepthOf(fs: Frames): nat {
    match fs
    case Nil => 0
    case Cons(LinkFrame(_), rest) => DepthOf(rest) + 1
    case Cons(ImageFrame(AsLink), rest) => DepthOf(rest) + 1
    case Cons(_, rest) => DepthOf(rest)
  }

  function ModesOf(fs: Frames): Modes {
    Modes(LinksOf(fs), ImagesOf(fs), DepthOf(fs))
  }

  /** Plain frames stand for tags that are neither links nor images. */
  ghost predicate Proper(fs: Frames) {
    fs.Cons? ==> (fs.head.PlainFrame? ==> fs.head.end != LinkEnd && fs.head.end != ImageEnd) && Proper(fs.tail)
  }

  function FrameOf(tag: Tag, depth: nat): Frame {
    match tag
    case Link(kind, destination, _, _) => LinkFrame(KeepsLink(kind, destination))
    case Image(_, destination, _, _) => ImageFrame(ModeOf(destination, depth))
    case _ => PlainFrame(EndOf(tag))
  }

  function NextFrames(fs: Frames, e: Event): Frames {
    match e
    case Start(tag) => Cons(FrameOf(tag, DepthOf(fs)), fs)
    case End(_) => if fs.Cons? then fs.tail else Nil
    case _ => fs
  }

  lemma PoppedSnoc<T>(s: seq<T>, x: T)
    ensures Popped(s + [x]) == s
  {
  }

  lemma CloseLink(kept: bool, rest: Frames)
    ensures NextModes(ModesOf(Cons(LinkFrame(kept), rest)), End(LinkEnd)) == ModesOf(rest)
  {
    PoppedSnoc(LinksOf(rest), kept);
  }

  lemma CloseImage(mode: ImageMode, rest: Frames)
    ensures NextModes(ModesOf(Cons(ImageFrame(mode), rest)), End(ImageEnd)) == ModesOf(rest)
  {
    PoppedSnoc(ImagesOf(rest), mode);
  }

  lemma ModesClose(f: Frame, rest: Frames)
    requires Proper(Cons(f, rest))
    ensures NextModes(ModesOf(Cons(f, rest)), End(InOf(f))) == ModesOf(rest)
  {
    match f
    case LinkFrame(kept) => CloseLink(kept, rest);
    case ImageFrame(mode) => CloseImage(mode, rest);
    case PlainFrame(_) =>
  }

  lemma ModesOpen(fs: Frames, tag: Tag)
    ensures NextModes(ModesOf(fs), Start(tag)) == ModesOf(Cons(FrameOf(tag, DepthOf(fs)), fs))
    ensures Proper(fs) ==> Proper(Cons(FrameOf(tag, DepthOf(fs)), fs))
    ensures InOf(FrameOf(tag, DepthOf(fs))) == EndOf(tag)
  {
  }

  lemma ModesFollow(fs: Frames, e: Event)
    requires Proper(fs) && (e.End? ==> fs.Cons? && InOf(fs.head) == e.end)
    ensures Proper(NextFrames(fs, e)) && NextModes(ModesOf(fs), e) == ModesOf(NextFrames(fs, e))
    ensures Inside(NextFrames(fs, e)) == Opened(e, Inside(fs))
  {
    match e
    case Start(tag) => ModesOpen(fs, tag);
    case End(_) => ModesClose(fs.head, fs.tail);
    case _ =>
  }

  /** One event, seen from the output. */
  lemma OutputFollows(message: nat, fs: Frames, e: Event, rest: List<Event>)
    requires Proper(fs) && (e.End? ==> fs.Cons? && InOf(fs.head) == e.end)
    requires Nested(rest, Outside(NextFrames(fs, e)))
    ensures Nested(Prepend(Rewritten(message, ModesOf(fs), e), rest), Outside(fs))
  {
  }

  lemma {:induction false} RewriteKeepsNesting(message: nat, fs: Frames, events: List<Event>)
    requires Proper(fs) && Nested(events, Inside(fs))
    ensures Nested(Rewrite(message, ModesOf(fs), events), Outside(fs))
    decreases events
  {
    if events.Cons? {
      var e := events.head;
      ModesFollow(fs, e);
      RewriteKeepsNesting(message, NextFrames(fs, e), events.tail);
      OutputFollows(message, fs, e, Rewrite(message, NextModes(ModesOf(fs), e), events.tail));
    }
  }

  /** An open link that is kept, or an open image that is shown as a link. */
  ghost predicate InShownLink(fs: Frames) {
    fs.Cons? && (fs.head == LinkFrame(true) || fs.head == ImageFrame(AsLink) || InShownLink(fs.tail))
  }

  /** No link that is kept starts inside one that is shown. */
  ghost predicate KeptApart(events: List<Event>, fs: Frames)
    decreases events
  {
    match events
    case Nil => true
    case Cons(e, rest) =>
      && (e.Start? && e.tag.Link? && KeepsLink(e.tag.kind, e.tag.destination) ==> !InShownLink(fs))
      && KeptApart(rest, NextFrames(fs, e))
  }

  lemma {:induction false} ShownLinkIsOpen(fs: Frames)
    requires Proper(fs)
    ensures Has(Outside(fs), LinkEnd) <==> InShownLink(fs)
    ensures DepthOf(fs) == 0 ==> !InShownLink(fs)
    ensures InShownLink(fs) ==> Has(Inside(fs), LinkEnd) || Has(Inside(fs), ImageEnd)
    decreases fs
  {
    if fs.Cons? { ShownLinkIsOpen(fs.tail); }
  }

  /** One event, seen from the output: an image becomes a link only where no link is open. */
  lemma OutputLinksFollow(message: nat, fs: Frames, e: Event, rest: List<Event>)
    requires Proper(fs) && (e.End? ==> fs.Cons? && InOf(fs.head) == e.end)
    ensures LinksApart(Prepend(Rewritten(message, ModesOf(fs), e), rest), Outside(fs)) <==>
              (e.Start? && e.tag.Link? && KeepsLink(e.tag.kind, e.tag.destination) ==> !InShownLink(fs))
              && LinksApart(rest, Outside(NextFrames(fs, e)))
  {
    ShownLinkIsOpen(fs);
  }

  /** The output of a well-nested stream opens no link inside a link exactly when no link that is kept starts
      inside a link that is kept or an image that is shown as a link. */
  lemma {:induction false} RewriteLinksApartExactly(message: nat, fs: Frames, events: List<Event>)
    requires Proper(fs) && Nested(events, Inside(fs))
    ensures LinksApart(Rewrite(message, ModesOf(fs), events), Outside(fs)) <==> KeptApart(events, fs)
    decreases events
  {
    if events.Cons? {
      var e := events.head;
      ModesFollow(fs, e);
      RewriteLinksApartExactly(message, NextFrames(fs, e), events.tail);
      OutputLinksFollow(message, fs, e, Rewrite(message, NextModes(ModesOf(fs), e), events.tail));
    }
  }

  lemma {:induction false} OutsideImagesIsEnough(fs: Frames, events: List<Event>)
    requires Proper(fs) && Nested(events, Inside(fs)) && LinksOutsideImages(events, Inside(fs))
    ensures KeptApart(events, fs)
    decreases events
  {
    if events.Cons? {
      ShownLinkIsOpen(fs);
      ModesFollow(fs, events.head);
      OutsideImagesIsEnough(NextFrames(fs, events.head), events.tail);
    }
  }

  /** In particular when no link is opened inside a link or an image at all. */
  lemma RewriteKeepsLinksApart(message: nat, fs: Frames, events: List<Event>)
    requires Proper(fs) && Nested(events, Inside(fs)) && LinksOutsideImages(events, Inside(fs))
    ensures LinksApart(Rewrite(message, ModesOf(fs), events), Outside(fs))
  {
    OutsideImagesIsEnough(fs, events);
    RewriteLinksApartExactly(message, fs, events);
  }

  function ImageAround(image: string, inner: List<Event>): List<Event> {
    Cons(Start(Image(Inline, image, "", "")), inner)
  }

  function LinkInImage(image: string, link: string): List<Event> {
    ImageAround(image, Cons(Start(Link(Inline, link, "", "")), Cons(End(LinkEnd), Cons(End(ImageEnd), Nil))))
  }

  lemma LinkInImageIsFine(image: string, link: string)
    ensures Nested(LinkInImage(image, link), Nil) && LinksApart(LinkInImage(image, link), Nil)
  {
  }

  /** With a link inside an image it can fail: the image becomes a link around it. */
  lemma ImageMayWrapLink(message: nat, image: string, link: string)
    requires !IsSafeSameOriginImageUrl(image) && IsSafeMarkdownUrl(image) && IsSafeMarkdownUrl(link)
    ensures Nested(LinkInImage(image, link), Nil) && LinksApart(LinkInImage(image, link), Nil)
    ensures !LinksApart(Rewrite(message, Modes([], [], 0), LinkInImage(image, link)), Nil)
  {
    LinkInImageIsFine(image, link);
    var open, wrapped := Start(Image(Inline, image, "", "")), Cons(ImageFrame(AsLink), Nil);
    assert NextFrames(Nil, open) == wrapped && InShownLink(wrapped);
    assert !KeptApart(LinkInImage(image, link).tail, wrapped);
    assert ModesOf(Nil) == Modes([], [], 0);
    RewriteLinksApartExactly(message, Nil, LinkInImage(image, link));
  }

  /** Whatever the stream: only safe destinations come out, no raw HTML does, and no text is lost. */
  lemma {:induction false} RewriteIsSafe(message: nat, m: Modes, events: List<Event>)
    ensures var out := Rewrite(message, m, events);
            AllSafe(out) && NoRawHtml(out) && TextOf(out) == TextOf(events)
    decreases events
  {
    match events
    case Nil =>
    case Cons(e, rest) =>
      RewriteIsSafe(message, NextModes(m, e), rest);
      OneIsSafe(message, m, e, Rewrite(message, NextModes(m, e), rest));
      assert Rewritten(message, m, e).None? ==> "" + TextOf(rest) == TextOf(rest);
  }

  lemma OneIsSafe(message: nat, m: Modes, e: Event, rest: List<Event>)
    requires AllSafe(rest)
    ensures AllSafe(Prepend(Rewritten(message, m, e), rest))
  {
    if e.Start? && (e.tag.Link? || e.tag.Image?) { TrimTwice(e.tag.destination); }
  }

  // ---------- The second pass ----------

  /** How many links, images and code blocks are open. */
  datatype Depths = Depths(link: nat, image: nat, code: nat)

  function NextDepths(d: Depths, e: Event): Depths {
    match e
    case Start(Link(_, _, _, _)) => d.(link := d.link + 1)
    case End(LinkEnd) => d.(link := Dec(d.link))
    case Start(Image(_, _, _, _)) => d.(image := d.image + 1)
    case End(ImageEnd) => d.(image := Dec(d.image))
    case Start(CodeBlock(_)) => d.(code := d.code + 1)
    case End(CodeBlockEnd) => d.(code := Dec(d.code))
    case _ => d
  }

  /** The links found in a text from a cursor on, each the first after the one before. */
  ghost predicate Chain(text: string, cursor: nat, founds: List<Found>)
    decreases founds
  {
    match founds
    case Nil => cursor <= |text| && NoLinkIn(text, cursor, |text|)
    case Cons(f, rest) => cursor <= f.start && IsLink(text, f) && NoLinkIn(text, cursor, f.start) && Chain(text, f.end, rest)
  }

  function TextIfAny(text: string, rest: List<Event>): List<Event> {
    if text == "" then rest else Cons(Text(text), rest)
  }

  function LinkEvents(text: string, cursor: nat, f: Found, rest: List<Event>): List<Event>
    requires cursor <= f.start < f.end <= |text|
  {
    TextIfAny(text[cursor..f.start],
      Cons(Start(Link(f.kind, f.destination, "", "")), Cons(Text(text[f.start..f.end]), Cons(End(LinkEnd), rest))))
  }

  function EventsOf(text: string, cursor: nat, founds: List<Found>): List<Event>
    requires Chain(text, cursor, founds)
    decreases founds
  {
    match founds
    case Nil => TextIfAny(text[cursor..], Nil)
    case Cons(f, rest) => LinkEvents(text, cursor, f, EventsOf(text, f.end, rest))
  }

  /** A text with its bare links made links. */
  ghost predicate Linked(text: string, cursor: nat, events: List<Event>) {
    exists founds :: Chain(text, cursor, founds) && events == EventsOf(text, cursor, founds)
  }

  /** The events so far and then the rest. */
  function After(out: seq<Event>, rest: List<Event>): List<Event> {
    if out == [] then rest else After(out[..|out| - 1], Cons(out[|out| - 1], rest))
  }

  function Push(out: seq<Event>, e: Event): (r: seq<Event>)
    ensures forall rest :: After(r, rest) == After(out, Cons(e, rest))
  {
    assert (out + [e])[..|out|] == out;
    out + [e]
  }

  ghost predicate LinkedSoFar(text: string, out: seq<Event>, cursor: nat) {
    forall rest | Linked(text, cursor, rest) :: Linked(text, 0, After(out, rest))
  }

  lemma LinkedStep(text: string, cursor: nat, f: Found, rest: List<Event>)
    requires cursor <= f.start && IsLink(text, f) && NoLinkIn(text, cursor, f.start) && Linked(text, f.end, rest)
    ensures Linked(text, cursor, LinkEvents(text, cursor, f, rest))
  {
    var founds :| Chain(text, f.end, founds) && rest == EventsOf(text, f.end, founds);
    assert Chain(text, cursor, Cons(f, founds));
  }

  method PushLink(text: string, events: seq<Event>, cursor: nat, f: Found) returns (r: seq<Event>)
    requires LinkedSoFar(text, events, cursor)
    requires cursor <= f.start && IsLink(text, f) && NoLinkIn(text, cursor, f.start)
    ensures LinkedSoFar(text, r, f.end)
  {
    r := events;
    if cursor < f.start {
      r := Push(r, Text(text[cursor..f.start]));
    }
    r := Push(r, Start(Link(f.kind, f.destination, "", "")));
    r := Push(r, Text(text[f.start..f.end]));
    r := Push(r, End(LinkEnd));
    forall rest | Linked(text, f.end, rest) ensures Linked(text, 0, After(r, rest)) {
      LinkedStep(text, cursor, f, rest);
      assert After(r, rest) == After(events, LinkEvents(text, cursor, f, rest));
    }
  }

  method AutolinkTextEvents(text: string) returns (events: seq<Event>)
    ensures Linked(text, 0, After(events, Nil))
  {
    events := [];
    var cursor := 0;
    var found := FindBareAutolink(text, cursor);
    while found.Some?
      invariant cursor <= |text| && LinkedSoFar(text, events, cursor)
      invariant found.Some? ==> cursor <= found.value.start && IsLink(text, found.value) && NoLinkIn(text, cursor, found.value.start)
      invariant found.None? ==> NoLinkIn(text, cursor, |text|)
      decreases |text| - cursor, found.Some?
    {
      events := PushLink(text, events, cursor, found.value);
      cursor := found.value.end;
      found := FindBareAutolink(text, cursor);
    }
    assert Linked(text, cursor, TextIfAny(text[cursor..], Nil)) by {
      assert Chain(text, cursor, Nil) && EventsOf(text, cursor, Nil) == TextIfAny(text[cursor..], Nil);
    }
    if cursor < |text| {
      events := Push(events, Text(text[cursor..]));
    }
  }

  /** The links of a text are determined: there is one chain of them. */
  lemma {:induction false} ChainIsUnique(text: string, cursor: nat, a: List<Found>, b: List<Found>)
    requires Chain(text, cursor, a) && Chain(text, cursor, b)
    ensures a == b
    decreases a
  {
    if a.Cons? && b.Cons? {
      SameStart(text, cursor, a.head, b.head);
      LinkIsUnique(text, a.head, b.head);
      ChainIsUnique(text, a.head.end, a.tail, b.tail);
    } else if a.Cons? {
      SomeLink(text, cursor, a.head, |text|);
    } else if b.Cons? {
      SomeLink(text, cursor, b.head, |text|);
    }
  }

  lemma SomeLink(text: string, cursor: nat, f: Found, to': nat)
    requires cursor <= f.start && IsLink(text, f) && NoLinkIn(text, cursor, to')
    ensures to' <= f.start
  {
    assert f.start < to' ==> NoLink(text, f.start);
  }

  lemma SameStart(text: string, cursor: nat, f: Found, g: Found)
    requires cursor <= f.start && IsLink(text, f) && NoLinkIn(text, cursor, f.start)
    requires cursor <= g.start && IsLink(text, g) && NoLinkIn(text, cursor, g.start)
    ensures f.start == g.start
  {
    SomeLink(text, cursor, f, g.start);
    SomeLink(text, cursor, g, f.start);
  }

  lemma LinkedIsUnique(text: string, a: List<Event>, b: List<Event>)
    requires Linked(text, 0, a) && Linked(text, 0, b)
    ensures a == b
  {
    var x :| Chain(text, 0, x) && a == EventsOf(text, 0, x);
    var y :| Chain(text, 0, y) && b == EventsOf(text, 0, y);
    ChainIsUnique(text, 0, x, y);
  }

  /** What one event becomes; `plain` is whether no link, image or code block is open. */
  ghost predicate Turned(plain: bool, e: Event, now: List<Event>) {
    if e.Text? && plain then Linked(e.text, 0, now) else now == Cons(e, Nil)
  }

  /** The second pass over a stream, by its counters. */
  ghost predicate Passed(d: Depths, events: List<Event>, out: List<Event>)
    decreases events
  {
    match events
    case Nil => out == Nil
    case Cons(e, rest) =>
      exists now, later :: out == Append(now, later) && Turned(d == Depths(0, 0, 0), e, now) && Passed(NextDepths(d, e), rest, later)
  }

  /** A stream comes out of the second pass in one way. */
  lemma {:induction false} PassedIsUnique(d: Depths, events: List<Event>, a: List<Event>, b: List<Event>)
    requires Passed(d, events, a) && Passed(d, events, b)
    ensures a == b
    decreases events
  {
    match events
    case Nil =>
    case Cons(e, rest) =>
      var plain := d == Depths(0, 0, 0);
      var now, later :| a == Append(now, later) && Turned(plain, e, now) && Passed(NextDepths(d, e), rest, later);
      var now', later' :| b == Append(now', later') && Turned(plain, e, now') && Passed(NextDepths(d, e), rest, later');
      if e.Text? && plain { LinkedIsUnique(e.text, now, now'); }
      PassedIsUnique(NextDepths(d, e), rest, later, later');
  }

  /** The second pass as it runs, event by event. */
  class AutolinkPass {
    var linkDepth: nat
    var imageDepth: nat
    var codeBlockDepth: nat

    function Current(): Depths
      reads this
    {
      Depths(linkDepth, imageDepth, codeBlockDepth)
    }

    constructor ()
      ensures Current() == Depths(0, 0, 0)
    {
      linkDepth, imageDepth, codeBlockDepth := 0, 0, 0;
    }

    method FlatMap(e: Event) returns (out: seq<Event>)
      modifies this
      ensures Current() == NextDepths(old(Current()), e)
      ensures Turned(old(Current()) == Depths(0, 0, 0), e, After(out, Nil))
    {
      out := [e];
      assert After([e], Nil) == Cons(e, Nil) by { assert [e][..0] == []; }
      match e
      case Start(Link(_, _, _, _)) => linkDepth := linkDepth + 1;
      case End(LinkEnd) => linkDepth := Dec(linkDepth);
      case Start(Image(_, _, _, _)) => imageDepth := imageDepth + 1;
      case End(ImageEnd) => imageDepth := Dec(imageDepth);
      case Start(CodeBlock(_)) => codeBlockDepth := codeBlockDepth + 1;
      case End(CodeBlockEnd) => codeBlockDepth := Dec(codeBlockDepth);
      case Text(text) =>
        if linkDepth == 0 && imageDepth == 0 && codeBlockDepth == 0 {
          out := AutolinkTextEvents(text);
        }
      case _ =>
    }
  }

  lemma {:induction false} AfterSum(a: seq<Event>, b: seq<Event>, rest: List<Event>)
    ensures After(a + b, rest) == After(a, Append(After(b, Nil), rest))
    decreases |b|
  {
    AfterAppend(b, Nil, rest);
    AfterTwo(a, b, rest);
  }

  lemma {:induction false} AfterTwo(a: seq<Event>, b: seq<Event>, rest: List<Event>)
    ensures After(a + b, rest) == After(a, After(b, rest))
    decreases |b|
  {
    if b == [] {
      assert a + b == a;
    } else {
      assert (a + b)[..|a + b| - 1] == a + b[..|b| - 1];
      AfterTwo(a, b[..|b| - 1], Cons(b[|b| - 1], rest));
    }
  }

  lemma {:induction false} AfterAppend(b: seq<Event>, x: List<Event>, rest: List<Event>)
    ensures Append(After(b, x), rest) == After(b, Append(x, rest))
    decreases |b|
  {
    if b != [] { AfterAppend(b[..|b| - 1], Cons(b[|b| - 1], x), rest); }
  }

  ghost predicate PassedSoFar(all: List<Event>, out: seq<Event>, d: Depths, events: List<Event>) {
    forall later | Passed(d, events, later) :: Passed(Depths(0, 0, 0), all, After(out, later))
  }

  lemma PassedStep(all: List<Event>, out: seq<Event>, d: Depths, e: Event, rest: List<Event>, now: seq<Event>)
    requires PassedSoFar(all, out, d, Cons(e, rest)) && Turned(d == Depths(0, 0, 0), e, After(now, Nil))
    ensures PassedSoFar(all, out + now, NextDepths(d, e), rest)
  {
    forall later | Passed(NextDepths(d, e), rest, later) ensures Passed(Depths(0, 0, 0), all, After(out + now, later)) {
      assert Passed(d, Cons(e, rest), Append(After(now, Nil), later));
      AfterSum(out, now, later);
    }
  }

  /** Both passes, each event going through the first and what is left of it through the second. */
  method RenderEvents(message: nat, events: List<Event>) returns (out: seq<Event>)
    ensures Passed(Depths(0, 0, 0), Rewrite(message, Modes([], [], 0), events), After(out, Nil))
  {
    var first := new LinkPass(message);
    var second := new AutolinkPass();
    ghost var all := Rewrite(message, Modes([], [], 0), events);
    var rest := events;
    out := [];
    while rest.Cons?
      invariant PassedSoFar(all, out, second.Current(), Rewrite(message, first.Current(), rest))
      decreases rest
    {
      var kept := first.Filter(rest.head);
      rest := rest.tail;
      if kept.Some? {
        ghost var d := second.Current();
        var now := second.FlatMap(kept.value);
        PassedStep(all, out, d, kept.value, Rewrite(message, first.Current(), rest), now);
        out := out + now;
      }
    }
    assert Passed(second.Current(), Nil, Nil);
  }

  // ---------- The second pass keeps the nesting, the links apart and the text ----------

  ghost predicate Plain(open: List<TagEnd>) {
    !Has(open, LinkEnd) && !Has(open, ImageEnd) && !Has(open, CodeBlockEnd)
  }

  /** The second pass by what is open, without counters. */
  ghost predicate LinkedWherePlain(open: List<TagEnd>, events: List<Event>, out: List<Event>)
    decreases events
  {
    match events
    case Nil => out == Nil
    case Cons(e, rest) =>
      exists now, later :: out == Append(now, later) && Turned(Plain(open), e, now) && LinkedWherePlain(Opened(e, open), rest, later)
  }

  function DepthsOf(open: List<TagEnd>): Depths {
    match open
    case Nil => Depths(0, 0, 0)
    case Cons(end, rest) =>
      var d := DepthsOf(rest);
      match end
      case LinkEnd => d.(link := d.link + 1)
      case ImageEnd => d.(image := d.image + 1)
      case CodeBlockEnd => d.(code := d.code + 1)
      case _ => d
  }

  lemma {:induction false} PlainIsZero(open: List<TagEnd>)
    ensures (DepthsOf(open).link == 0 <==> !Has(open, LinkEnd)) && (DepthsOf(open).image == 0 <==> !Has(open, ImageEnd))
    ensures DepthsOf(open).code == 0 <==> !Has(open, CodeBlockEnd)
  {
    if open.Cons? { PlainIsZero(open.tail); }
  }

  /** In a well-nested stream the counters tell what is open: bare links are made exactly where no link,
      image or code block is. */
  lemma {:induction false} CountersTellWhatIsOpen(open: List<TagEnd>, events: List<Event>, out: List<Event>)
    requires Nested(events, open)
    ensures Passed(DepthsOf(open), events, out) <==> LinkedWherePlain(open, events, out)
    decreases events
  {
    match events
    case Nil =>
    case Cons(e, rest) =>
      PlainIsZero(open);
      assert Plain(open) <==> DepthsOf(open) == Depths(0, 0, 0);
      assert NextDepths(DepthsOf(open), e) == DepthsOf(Opened(e, open));
      forall later { CountersTellWhatIsOpen(Opened(e, open), rest, later); }
  }

  lemma LinkEventsAppend(text: string, cursor: nat, f: Found, x: List<Event>, rest: List<Event>)
    requires cursor <= f.start < f.end <= |text|
    ensures Append(LinkEvents(text, cursor, f, x), rest) == LinkEvents(text, cursor, f, Append(x, rest))
  {
    var closing := Cons(End(LinkEnd), x);
    var inner := Cons(Text(text[f.start..f.end]), closing);
    assert Append(closing, rest) == Cons(End(LinkEnd), Append(x, rest));
    assert Append(inner, rest) == Cons(Text(text[f.start..f.end]), Append(closing, rest));
    var link := Start(Link(f.kind, f.destination, "", ""));
    assert Append(Cons(link, inner), rest) == Cons(link, Append(inner, rest));
  }

  lemma ChainEnds(text: string, cursor: nat, rest: List<Event>)
    requires cursor <= |text|
    ensures Append(TextIfAny(text[cursor..], Nil), rest) == TextIfAny(text[cursor..], rest)
  {
    assert Append(Nil, rest) == rest;
  }

  lemma LinkNests(text: string, cursor: nat, f: Found, x: List<Event>, open: List<TagEnd>)
    requires cursor <= f.start < f.end <= |text|
    ensures Nested(LinkEvents(text, cursor, f, x), open) <==> Nested(x, open)
    ensures AllSafe(x) && SafeTag(Link(f.kind, f.destination, "", "")) ==> AllSafe(LinkEvents(text, cursor, f, x))
    ensures NoRawHtml(x) ==> NoRawHtml(LinkEvents(text, cursor, f, x))
    ensures !Has(open, LinkEnd) ==> (LinksApart(LinkEvents(text, cursor, f, x), open) <==> LinksApart(x, open))
  {
    var closing := Cons(End(LinkEnd), x);
    var inner := Cons(Text(text[f.start..f.end]), closing);
    var link := Cons(Start(Link(f.kind, f.destination, "", "")), inner);
    var inside := Cons(LinkEnd, open);
    assert Nested(inner, inside) <==> Nested(closing, inside);
    assert Nested(link, open) <==> Nested(inner, inside);
    assert AllSafe(inner) <==> AllSafe(closing);
    assert NoRawHtml(inner) <==> NoRawHtml(closing);
    assert LinksApart(inner, inside) <==> LinksApart(closing, inside);
  }

  /** The events of a chain of links close what they open. */
  lemma {:induction false} ChainKeepsNesting(text: string, cursor: nat, founds: List<Found>, rest: List<Event>, open: List<TagEnd>)
    requires Chain(text, cursor, founds) && Nested(rest, open)
    ensures Nested(Append(EventsOf(text, cursor, founds), rest), open)
    decreases founds
  {
    match founds
    case Nil => ChainEnds(text, cursor, rest);
    case Cons(f, more) =>
      ChainKeepsNesting(text, f.end, more, rest, open);
      var x := EventsOf(text, f.end, more);
      LinkEventsAppend(text, cursor, f, x, rest);
      LinkNests(text, cursor, f, Append(x, rest), open);
  }

  lemma {:induction false} ChainKeepsLinksApart(text: string, cursor: nat, founds: List<Found>, rest: List<Event>, open: List<TagEnd>)
    requires Chain(text, cursor, founds) && !Has(open, LinkEnd)
    ensures LinksApart(Append(EventsOf(text, cursor, founds), rest), open) <==> LinksApart(rest, open)
    decreases founds
  {
    match founds
    case Nil => ChainEnds(text, cursor, rest);
    case Cons(f, more) =>
      ChainKeepsLinksApart(text, f.end, more, rest, open);
      var x := EventsOf(text, f.end, more);
      LinkEventsAppend(text, cursor, f, x, rest);
      LinkNests(text, cursor, f, Append(x, rest), open);
  }

  /** Their text is the text. */
  lemma {:induction false} ChainKeepsText(text: string, cursor: nat, founds: List<Found>, rest: List<Event>)
    requires Chain(text, cursor, founds) && cursor <= |text|
    ensures TextOf(Append(EventsOf(text, cursor, founds), rest)) == text[cursor..] + TextOf(rest)
    decreases founds
  {
    match founds
    case Nil =>
      ChainEnds(text, cursor, rest);
      assert text[cursor..] == "" ==> "" + TextOf(rest) == TextOf(rest);
    case Cons(f, more) =>
      ChainKeepsText(text, f.end, more, rest);
      var x := EventsOf(text, f.end, more);
      LinkEventsAppend(text, cursor, f, x, rest);
      LinkText(text, cursor, f, Append(x, rest), TextOf(rest));
  }

  lemma LinkText(text: string, cursor: nat, f: Found, after: List<Event>, rest: string)
    requires cursor <= f.start < f.end <= |text| && TextOf(after) == text[f.end..] + rest
    ensures TextOf(LinkEvents(text, cursor, f, after)) == text[cursor..] + rest
  {
    var a, b, c := text[cursor..f.start], text[f.start..f.end], text[f.end..];
    var closing := Cons(End(LinkEnd), after);
    var link := Cons(Start(Link(f.kind, f.destination, "", "")), Cons(Text(b), closing));
    assert TextOf(link) == b + (c + rest) by {
      assert TextOf(closing) == TextOf(after) by { assert "" + TextOf(after) == TextOf(after); }
      assert TextOf(Cons(Text(b), closing)) == b + TextOf(closing);
      assert "" + (b + (c + rest)) == b + (c + rest);
    }
    assert TextOf(TextIfAny(a, link)) == a + TextOf(link) by { assert "" + TextOf(link) == TextOf(link); }
    ThreeParts(text, cursor, f.start, f.end, rest);
  }

  lemma ThreeParts(text: string, i: nat, j: nat, k: nat, rest: string)
    requires i <= j <= k <= |text|
    ensures text[i..j] + (text[j..k] + (text[k..] + rest)) == text[i..] + rest
  {
  }

  lemma {:induction false} ChainIsSafe(text: string, cursor: nat, founds: List<Found>, rest: List<Event>)
    requires Chain(text, cursor, founds) && AllSafe(rest) && NoRawHtml(rest)
    ensures AllSafe(Append(EventsOf(text, cursor, founds), rest)) && NoRawHtml(Append(EventsOf(text, cursor, founds), rest))
    decreases founds
  {
    match founds
    case Nil => ChainEnds(text, cursor, rest);
    case Cons(f, more) =>
      ChainIsSafe(text, f.end, more, rest);
      LinkIsSafe(text, f);
      var x := EventsOf(text, f.end, more);
      LinkEventsAppend(text, cursor, f, x, rest);
      LinkNests(text, cursor, f, Append(x, rest), Nil);
  }

  /** The second pass keeps a well-nested stream well nested. */
  lemma {:induction false} PassKeepsNesting(d: Depths, open: List<TagEnd>, events: List<Event>, out: List<Event>)
    requires Nested(events, open) && Passed(d, events, out)
    ensures Nested(out, open)
    decreases events
  {
    match events
    case Nil =>
    case Cons(e, rest) =>
      var now, later :| out == Append(now, later) && Turned(d == Depths(0, 0, 0), e, now) && Passed(NextDepths(d, e), rest, later);
      PassKeepsNesting(NextDepths(d, e), Opened(e, open), rest, later);
      if now == Cons(e, Nil) {
        assert Append(Nil, later) == later && out == Cons(e, later);
      } else {
        var founds :| Chain(e.text, 0, founds) && now == EventsOf(e.text, 0, founds);
        ChainKeepsNesting(e.text, 0, founds, later, open);
      }
  }

  /** It opens no link inside an open link: links come out apart exactly when they go in apart. */
  lemma {:induction false} PassKeepsLinksApart(open: List<TagEnd>, events: List<Event>, out: List<Event>)
    requires LinkedWherePlain(open, events, out)
    ensures LinksApart(out, open) <==> LinksApart(events, open)
    decreases events
  {
    match events
    case Nil =>
    case Cons(e, rest) =>
      var now, later :| out == Append(now, later) && Turned(Plain(open), e, now) && LinkedWherePlain(Opened(e, open), rest, later);
      PassKeepsLinksApart(Opened(e, open), rest, later);
      if now == Cons(e, Nil) {
        assert Append(Nil, later) == later && out == Cons(e, later);
        KeptLinksApart(open, e, rest, later);
      } else {
        MadeLinksApart(open, e, rest, now, later);
      }
  }

  lemma KeptLinksApart(open: List<TagEnd>, e: Event, rest: List<Event>, later: List<Event>)
    requires LinksApart(later, Opened(e, open)) <==> LinksApart(rest, Opened(e, open))
    ensures LinksApart(Cons(e, later), open) <==> LinksApart(Cons(e, rest), open)
  {
  }

  lemma MadeLinksApart(open: List<TagEnd>, e: Event, rest: List<Event>, now: List<Event>, later: List<Event>)
    requires e.Text? && Plain(open) && Linked(e.text, 0, now)
    requires LinksApart(later, open) <==> LinksApart(rest, open)
    ensures LinksApart(Append(now, later), open) <==> LinksApart(Cons(e, rest), open)
  {
    var founds :| Chain(e.text, 0, founds) && now == EventsOf(e.text, 0, founds);
    ChainKeepsLinksApart(e.text, 0, founds, later, open);
  }

  /** It changes no text, and every destination it adds is safe. */
  lemma {:induction false} PassIsSafe(d: Depths, events: List<Event>, out: List<Event>)
    requires Passed(d, events, out) && AllSafe(events) && NoRawHtml(events)
    ensures AllSafe(out) && NoRawHtml(out) && TextOf(out) == TextOf(events)
    decreases events
  {
    match events
    case Nil =>
    case Cons(e, rest) =>
      var now, later :| out == Append(now, later) && Turned(d == Depths(0, 0, 0), e, now) && Passed(NextDepths(d, e), rest, later);
      PassIsSafe(NextDepths(d, e), rest, later);
      if now == Cons(e, Nil) {
        assert Append(Nil, later) == later && out == Cons(e, later);
      } else {
        var founds :| Chain(e.text, 0, founds) && now == EventsOf(e.text, 0, founds);
        ChainIsSafe(e.text, 0, founds, later);
        ChainKeepsText(e.text, 0, founds, later);
        assert e.text[0..] == e.text;
      }
  }

  // ---------- Bare links are safe ----------

  lemma {:induction false} TrimEndKeeps(s: string, k: nat)
    requires k < |s| && !IsWhitespace(s[k])
    ensures k < |TrimEnd(s)| <= |s| && TrimEnd(s) == s[..|TrimEnd(s)|]
    decreases |s|
  {
    if IsWhitespace(s[|s| - 1]) { TrimEndKeeps(s[..|s| - 1], k); }
  }

  lemma SchemeIs(s: string, k: nat)
    requires k < |s| && s[k] == ':' && forall i | 0 <= i < k :: s[i] != ':'
    ensures Scheme(s) == Some(s[..k])
    decreases k
  {
    if k > 0 {
      SchemeIs(s[1..], k - 1);
      assert [s[0]] + s[1..][..k - 1] == s[..k];
    }
  }

  /** A destination that starts with `http://` or `https://`, in any letter case, is safe. */
  lemma HttpIsSafe(url: string, prefix: string)
    requires (prefix == HTTP || prefix == HTTPS) && PrefixAt(url, 0, prefix)
    ensures IsSafeMarkdownUrl(url)
  {
    var n := |prefix| - 3;
    assert forall i | 0 <= i < |prefix| :: LowerAt(url, 0 + i, prefix[i]);
    assert prefix[n] == ':' && prefix[..n] == if prefix == HTTP then "http" else "https";
    assert url[n] == ':' && !IsWhitespace(url[n]);
    assert !IsWhitespace(url[0]) by { assert LowerAt(url, 0, prefix[0]); }
    var t := Trim(url);
    TrimEndKeeps(url, n);
    assert forall i | 0 <= i < n :: LowerAscii(t[i]) == prefix[i] != ':';
    SchemeIs(t, n);
    assert EqIgnoreAsciiCase(t[..n], prefix[..n]) by {
      assert forall i | 0 <= i < n :: LowerAscii(prefix[i]) == prefix[i];
    }
  }

  lemma LinkIsSafe(text: string, f: Found)
    requires IsLink(text, f)
    ensures SafeTag(Link(f.kind, f.destination, "", ""))
  {
    if f.kind == Autolinked {
      var n := UrlPrefix(text, f.start);
      if n == |WWW| {
        assert forall i | 0 <= i < |HTTP| :: LowerAt(HTTP + text[f.start..f.end], 0 + i, HTTP[i]);
        HttpIsSafe(HTTP + text[f.start..f.end], HTTP);
      } else {
        var prefix := if n == |HTTPS| then HTTPS else HTTP;
        assert f.destination == text[f.start..f.end] by { assert "" + text[f.start..f.end] == text[f.start..f.end]; }
        PrefixOfSlice(text, f.start, f.end, prefix);
        HttpIsSafe(f.destination, prefix);
      }
    }
  }

  lemma PrefixOfSlice(text: string, start: nat, end: nat, prefix: string)
    requires start + |prefix| <= end <= |text| && PrefixAt(text, start, prefix)
    ensures PrefixAt(text[start..end], 0, prefix)
  {
    var url := text[start..end];
    forall i | 0 <= i < |prefix| ensures LowerAt(url, 0 + i, prefix[i]) {
      assert LowerAt(text, start + i, prefix[i]) && url[i] == text[start + i];
    }
  }

  // ---------- Both passes ----------

  /** What is rendered of any stream of events has only safe destinations, no raw HTML and all the text; and
      of a well-nested stream it is well nested, with no link in a link exactly when no link that is kept
      starts inside a link that is kept or an image that is shown as a link. */
  lemma RenderedIsSafe(message: nat, events: List<Event>, out: List<Event>)
    requires Passed(Depths(0, 0, 0), Rewrite(message, Modes([], [], 0), events), out)
    ensures AllSafe(out) && NoRawHtml(out) && TextOf(out) == TextOf(events)
    ensures Nested(events, Nil) ==> Nested(out, Nil) && (LinksApart(out, Nil) <==> KeptApart(events, Nil))
    ensures Nested(events, Nil) && LinksOutsideImages(events, Nil) ==> LinksApart(out, Nil)
  {
    var m := Modes([], [], 0);
    var middle := Rewrite(message, m, events);
    RewriteIsSafe(message, m, events);
    PassIsSafe(Depths(0, 0, 0), middle, out);
    if Nested(events, Nil) {
      assert ModesOf(Nil) == m && Inside(Nil) == Nil == Outside(Nil) && DepthsOf(Nil) == Depths(0, 0, 0);
      RewriteKeepsNesting(message, Nil, events);
      PassKeepsNesting(Depths(0, 0, 0), Nil, middle, out);
      RewriteLinksApartExactly(message, Nil, events);
      CountersTellWhatIsOpen(Nil, middle, out);
      PassKeepsLinksApart(Nil, middle, out);
      if LinksOutsideImages(events, Nil) { OutsideImagesIsEnough(Nil, events); }
    }
  }

  // ---------- Footnotes ----------

  lemma {:induction false} HyphenEnds(a: string, b: string, x: string, y: string)
    requires AllDigits(a) && AllDigits(b) && a + "-" + x == b + "-" + y
    ensures a == b && x == y
    decreases |a|
  {
    var s := a + "-" + x;
    assert |a| < |b| ==> s[|a|] == '-' && DigitAt(b, |a|);
    assert |b| < |a| ==> s[|b|] == '-' && DigitAt(a, |b|);
    assert s[..|a|] == a && s[..|b|] == b && s[|a| + 1..] == x && s[|b| + 1..] == y;
  }

  /** Footnotes of different messages, or of different names, do not share a name on the page. */
  lemma FootnotesStayApart(message: nat, name: string, message': nat, name': string)
    requires FootnoteName(message, name) == FootnoteName(message', name')
    ensures message == message' && name == name'
  {
    var p := "ains-footnote-";
    var s, s' := Decimal(message) + "-" + name, Decimal(message') + "-" + name';
    assert FootnoteName(message, name) == p + s && FootnoteName(message', name') == p + s';
    assert (p + s)[|p|..] == s && (p + s')[|p|..] == s';
    DecimalReads(message);
    DecimalReads(message');
    HyphenEnds(Decimal(message), Decimal(message'), name, name');
  }
}
