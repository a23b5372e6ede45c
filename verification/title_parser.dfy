/**
 * The title scraper of the crawler script (`TitleParser`, `fetch_title`).
 *
 * Python's `HTMLParser` turns the page into a stream of start-tag, end-tag
 * and data events and calls one handler per event; the stream is the input
 * here, and fetching the page is outside the model.
 */
module TitleScraper {
  import opened Outcomes
  import opened Text

  datatype Event = StartTag(tag: string) | EndTag(tag: string) | Data(data: string)

  /** The two fields of a `TitleParser`. */
  datatype ParserState = ParserState(inTitle: bool, title: Option<string>)

  /** `tag.lower() == "title"`: the five letters of `title`, each in either case. */
  function IsTitleTag(tag: string): (r: bool)
    ensures r <==> |tag| == 5 && forall k :: 0 <= k < 5 ==> tag[k] == "title"[k] || tag[k] == "TITLE"[k]
  {
    var lower := LowerAscii(tag);
    assert lower == "title" <==> |tag| == 5 && forall k :: 0 <= k < 5 ==> lower[k] == "title"[k];
    lower == "title"
  }

  predicate OpensTitle(e: Event) {
    e.StartTag? && IsTitleTag(e.tag)
  }

  predicate ClosesTitle(e: Event) {
    e.EndTag? && IsTitleTag(e.tag)
  }

  /** `__init__`: not inside a title, no title seen. */
  const Initial := ParserState(false, None)

  /**
   * The handler `HTMLParser` calls for one event, applied to the parser's
   * fields: title tags open and close the title, data inside it replaces the
   * title with its stripped text, and nothing else changes anything.
   */
  function Step(s: ParserState, e: Event): (r: ParserState)
    ensures OpensTitle(e) ==> r.inTitle
    ensures ClosesTitle(e) ==> !r.inTitle
    ensures !OpensTitle(e) && !ClosesTitle(e) ==> r.inTitle == s.inTitle
    ensures e.Data? && s.inTitle ==> r.title == Some(Strip(e.data))
    ensures !(e.Data? && s.inTitle) ==> r.title == s.title
  {
    match e
    case StartTag(tag) => if IsTitleTag(tag) then s.(inTitle := true) else s
    case EndTag(tag) => if IsTitleTag(tag) then s.(inTitle := false) else s
    case Data(data) => if s.inTitle then s.(title := Some(Strip(data))) else s
  }

  /**
   * The fields after the handlers have run for every event, in order. The
   * title is still the one it started with, or the stripped text of some
   * data event of the page.
   */
  function Run(s: ParserState, events: seq<Event>): (r: ParserState)
    ensures r.title == s.title || exists k :: 0 <= k < |events| && events[k].Data? && r.title == Some(Strip(events[k].data))
  {
    if events == [] then s
    else
      var n := |events| - 1;
      assert forall k :: 0 <= k < n ==> events[..n][k] == events[k];
      Step(Run(s, events[..n]), events[n])
  }

  /**
   * Inside a title after `events`: some title start tag was seen and no title
   * end tag came after it.
   */
  ghost predicate InsideTitle(events: seq<Event>) {
    exists k :: 0 <= k < |events| && OpensTitle(events[k]) && forall j :: k < j < |events| ==> !ClosesTitle(events[j])
  }

  lemma InsideAfterOpen(prefix: seq<Event>, e: Event)
    requires OpensTitle(e)
    ensures InsideTitle(prefix + [e])
  {
    assert OpensTitle((prefix + [e])[|prefix|]);
  }

  lemma InsideAfterClose(prefix: seq<Event>, e: Event)
    requires ClosesTitle(e)
    ensures !InsideTitle(prefix + [e])
  {
    var events := prefix + [e];
    forall k | 0 <= k < |events| && OpensTitle(events[k])
      ensures exists j :: k < j < |events| && ClosesTitle(events[j])
    {
      assert ClosesTitle(events[|prefix|]);
    }
  }

  lemma InsideAfterOther(prefix: seq<Event>, e: Event)
    requires !OpensTitle(e) && !ClosesTitle(e)
    ensures InsideTitle(prefix + [e]) <==> InsideTitle(prefix)
  {
    var events := prefix + [e];
    if InsideTitle(prefix) {
      var k :| 0 <= k < |prefix| && OpensTitle(prefix[k]) && forall j :: k < j < |prefix| ==> !ClosesTitle(prefix[j]);
      assert OpensTitle(events[k]);
      assert forall j :: k < j < |events| ==> !ClosesTitle(events[j]);
    }
    if InsideTitle(events) {
      var k :| 0 <= k < |events| && OpensTitle(events[k]) && forall j :: k < j < |events| ==> !ClosesTitle(events[j]);
      assert k < |prefix|;
      assert OpensTitle(prefix[k]);
      assert forall j :: k < j < |prefix| ==> prefix[j] == events[j];
    }
  }

  /** The parser is inside a title exactly when the last title tag it saw was a start tag. */
  lemma {:induction false} RunInsideTitle(events: seq<Event>)
    ensures Run(Initial, events).inTitle <==> InsideTitle(events)
    decreases |events|
  {
    if events != [] {
      var n := |events| - 1;
      var prefix, e := events[..n], events[n];
      RunInsideTitle(prefix);
      assert events == prefix + [e];
      if OpensTitle(e) {
        InsideAfterOpen(prefix, e);
      } else if ClosesTitle(e) {
        InsideAfterClose(prefix, e);
      } else {
        InsideAfterOther(prefix, e);
      }
    }
  }

  /** Event `k` is data that the parser receives while inside a title. */
  ghost predicate TitleDataAt(events: seq<Event>, k: int) {
    0 <= k < |events| && events[k].Data? && InsideTitle(events[..k])
  }

  /** With no data received inside a title, the title stays `None`. */
  lemma {:induction false} RunTitleNone(events: seq<Event>)
    requires forall k :: 0 <= k < |events| ==> !TitleDataAt(events, k)
    ensures Run(Initial, events).title == None
    decreases |events|
  {
    if events != [] {
      var n := |events| - 1;
      var prefix := events[..n];
      forall k | 0 <= k < n ensures !TitleDataAt(prefix, k) {
        assert prefix[..k] == events[..k];
        assert !TitleDataAt(events, k);
      }
      RunTitleNone(prefix);
      RunInsideTitle(prefix);
      assert !TitleDataAt(events, n);
    }
  }

  /** Dropping a later event keeps event `k` the last data received inside a title. */
  lemma RunTitleLastPrefix(events: seq<Event>, prefix: seq<Event>, k: nat)
    requires TitleDataAt(events, k)
    requires forall j :: k < j < |events| ==> !TitleDataAt(events, j)
    requires k < |events| - 1 && prefix == events[..|events| - 1]
    ensures TitleDataAt(prefix, k)
    ensures forall j :: k < j < |prefix| ==> !TitleDataAt(prefix, j)
  {
    assert prefix[..k] == events[..k];
    forall j | k < j < |prefix| ensures !TitleDataAt(prefix, j) {
      assert prefix[..j] == events[..j];
      assert !TitleDataAt(events, j);
    }
  }

  /**
   * The title is the stripped text of the LAST data event received inside a
   * title: later data outside a title does not change it.
   */
  lemma {:induction false} RunTitleLast(events: seq<Event>, k: nat)
    requires TitleDataAt(events, k)
    requires forall j :: k < j < |events| ==> !TitleDataAt(events, j)
    ensures Run(Initial, events).title == Some(Strip(events[k].data))
    decreases |events|
  {
    var n := |events| - 1;
    if k == n {
      LastEventSetsTitle(events);
    } else {
      var prefix := events[..n];
      LastEventKeepsTitle(events);
      RunTitleLastPrefix(events, prefix, k);
      RunTitleLast(prefix, k);
    }
  }

  /** Data received inside a title as the last event sets the title. */
  lemma LastEventSetsTitle(events: seq<Event>)
    requires events != [] && TitleDataAt(events, |events| - 1)
    ensures Run(Initial, events).title == Some(Strip(events[|events| - 1].data))
  {
    RunInsideTitle(events[..|events| - 1]);
  }

  /** A last event that is not data inside a title leaves the title as it was. */
  lemma LastEventKeepsTitle(events: seq<Event>)
    requires events != [] && !TitleDataAt(events, |events| - 1)
    ensures Run(Initial, events).title == Run(Initial, events[..|events| - 1]).title
  {
    RunInsideTitle(events[..|events| - 1]);
  }

  /** `TitleParser`: an `HTMLParser` whose handlers track whether they are inside `<title>`. */
  class TitleParser {
    var inTitle: bool
    var title: Option<string>

    function State(): ParserState
      reads this
    {
      ParserState(inTitle, title)
    }

    constructor ()
      ensures State() == Initial
    {
      inTitle := false;
      title := None;
    }

    /** `handle_starttag`: a title start tag, in any letter case, enters the title. */
    method HandleStartTag(tag: string)
      modifies this
      ensures inTitle == (old(inTitle) || IsTitleTag(tag))
      ensures title == old(title)
    {
      if LowerAscii(tag) == "title" {
        inTitle := true;
      }
    }

    /** `handle_endtag`: a title end tag, in any letter case, leaves the title. */
    method HandleEndTag(tag: string)
      modifies this
      ensures inTitle == (old(inTitle) && !IsTitleTag(tag))
      ensures title == old(title)
    {
      if LowerAscii(tag) == "title" {
        inTitle := false;
      }
    }

    /** `handle_data`: inside a title the stripped text replaces the title; elsewhere data is ignored. */
    method HandleData(data: string)
      modifies this
      ensures inTitle == old(inTitle)
      ensures title == if old(inTitle) then Some(Strip(data)) else old(title)
    {
      if inTitle {
        title := Some(Strip(data));
      }
    }

    /** `feed`: `HTMLParser` calls the handler of each event in turn. */
    method Feed(events: seq<Event>)
      modifies this
      ensures State() == Run(old(State()), events)
    {
      for i := 0 to |events|
        invariant State() == Run(old(State()), events[..i])
      {
        match events[i] {
          case StartTag(tag) => HandleStartTag(tag);
          case EndTag(tag) => HandleEndTag(tag);
          case Data(data) => HandleData(data);
        }
        assert events[..i + 1][..i] == events[..i];
      }
      assert events[..|events|] == events;
    }
  }

  /** `fetch_title` after the page is read: a fresh parser is fed the page and its title returned. */
  method FetchTitle(events: seq<Event>) returns (title: Option<string>)
    ensures title == Run(Initial, events).title
  {
    var parser := new TitleParser();
    parser.Feed(events);
    title := parser.title;
  }
}
