/** The behaviour producers of src/monitor/behavior.js: the element selector and click-text
    helpers as string functions, and the monitor's page-view flag and page-stay start time
    as state updated in place. Events go to the reporter of module Report. */
module Behavior {
  import opened Wrappers
  import opened Events
  import ReportSpec
  import opened Report

  /** An element's `className`: a string on HTML elements, another object on SVG elements. */
  datatype ClassName = StringClass(value: string) | OtherClass

  datatype Element = Element(id: string, tagName: string, className: ClassName, innerText: Option<string>)

  const MaxClickText: nat := 100

  function LowerChar(c: char): char
  {
    if 'A' <= c <= 'Z' then (c as int + ('a' as int - 'A' as int)) as char else c
  }

  /** `toLowerCase` on ASCII letters. */
  function Lower(s: string): (r: string)
    ensures |r| == |s|
    ensures forall i :: 0 <= i < |s| ==> r[i] == LowerChar(s[i])
    ensures forall i :: 0 <= i < |r| ==> !('A' <= r[i] <= 'Z')
  {
    if s == [] then [] else [LowerChar(s[0])] + Lower(s[1..])
  }

  /** `s.split(sep)` with a one-character separator. */
  function Split(s: string, sep: char): (parts: seq<string>)
    ensures |parts| >= 1
    ensures forall i :: 0 <= i < |parts| ==> sep !in parts[i]
  {
    if s == [] then [[]]
    else if s[0] == sep then [[]] + Split(s[1..], sep)
    else
      var rest := Split(s[1..], sep);
      [[s[0]] + rest[0]] + rest[1..]
  }

  /** `parts.join(sep)` with a one-character separator. */
  function Join(parts: seq<string>, sep: char): string
  {
    if |parts| == 0 then []
    else if |parts| == 1 then parts[0]
    else parts[0] + [sep] + Join(parts[1..], sep)
  }

  /** Every occurrence of `from` replaced by `to`. */
  function Replace(s: string, from: char, to: char): (r: string)
    ensures |r| == |s|
    ensures forall i :: 0 <= i < |s| ==> r[i] == if s[i] == from then to else s[i]
  {
    if s == [] then [] else [if s[0] == from then to else s[0]] + Replace(s[1..], from, to)
  }

  lemma JoinPrepend(c: char, parts: seq<string>, sep: char)
    requires |parts| >= 1
    ensures Join([[c] + parts[0]] + parts[1..], sep) == [c] + Join(parts, sep)
  {
  }

  /** Splitting on a character and joining with another replaces the one by the other. */
  lemma {:induction false} JoinSplitReplaces(s: string, from: char, to: char)
    ensures Join(Split(s, from), to) == Replace(s, from, to)
  {
    if s != [] {
      var rest := Split(s[1..], from);
      JoinSplitReplaces(s[1..], from, to);
      if s[0] == from {
        assert ([[]] + rest)[1..] == rest;
      } else {
        JoinPrepend(s[0], rest, to);
      }
    }
  }

  /** `getElementSelector`: `#id` when the element has an id, otherwise the lower-cased tag
      name followed by the classes, each space of the class string turned into a dot. */
  function GetElementSelector(el: Element): (selector: string)
    ensures el.id != "" ==> selector == "#" + el.id
    ensures el.id == "" ==> |selector| >= |el.tagName| && selector[..|el.tagName|] == Lower(el.tagName)
    ensures el.id == "" && el.className.StringClass? && el.className.value != "" ==>
      && selector == Lower(el.tagName) + "." + Replace(el.className.value, ' ', '.')
      && forall k :: |el.tagName| <= k < |selector| ==> selector[k] != ' '
    ensures el.id == "" && (el.className.OtherClass? || el.className.value == "") ==>
      selector == Lower(el.tagName)
  {
    if el.id != "" then "#" + el.id
    else
      var tag := Lower(el.tagName);
      if el.className.StringClass? && el.className.value != "" then
        JoinSplitReplaces(el.className.value, ' ', '.');
        tag + "." + Join(Split(el.className.value, ' '), '.')
      else tag
  }

  /** `innerText?.substring(0, 100)`. */
  function ClickText(innerText: Option<string>): (text: Option<string>)
    ensures text.Some? <==> innerText.Some?
    ensures text.Some? ==> text.value <= innerText.value
    ensures text.Some? ==> |text.value| == if |innerText.value| < MaxClickText then |innerText.value| else MaxClickText
  {
    match innerText
    case None => None
    case Some(t) => Some(if |t| <= MaxClickText then t else t[..MaxClickText])
  }

  /** The record the click listener builds for a click at (x, y) on `target`. */
  function ClickRecord(target: Element, x: int, y: int, now: int): (e: Event)
  {
    Click(now, x, y, GetElementSelector(target), target.tagName, ClickText(target.innerText))
  }

  class BehaviorMonitor {
    const reporter: Reporter
    var pageViewTracked: bool
    /** The start time captured by `monitorPageStay`; None before it is installed. */
    var startTime: Option<int>

    ghost predicate Valid()
      reads this, reporter
    {
      reporter.Valid()
    }

    constructor (reporter: Reporter)
      ensures this.reporter == reporter
      ensures !pageViewTracked && startTime.None?
    {
      this.reporter := reporter;
      pageViewTracked := false;
      startTime := None;
    }

    method TrackPageView(url: string, title: string, referrer: string, now: int)
      requires Valid()
      modifies reporter
      ensures Valid()
      ensures reporter.Snapshot() == ReportSpec.AddToQueue(old(reporter.Snapshot()), PageView(url, title, now, referrer))
      ensures reporter.enqueued == old(reporter.enqueued) + [PageView(url, title, now, referrer)]
      ensures reporter.delivered == old(reporter.delivered) && reporter.intervals == old(reporter.intervals)
    {
      reporter.AddToQueue(PageView(url, title, now, referrer));
    }

    /** The initial page view is recorded on the first call only. */
    method MonitorPageView(url: string, title: string, referrer: string, now: int)
      requires Valid()
      modifies this, reporter
      ensures Valid() && pageViewTracked && startTime == old(startTime)
      ensures old(pageViewTracked) ==> unchanged(reporter)
      ensures !old(pageViewTracked) ==>
        reporter.Snapshot() == ReportSpec.AddToQueue(old(reporter.Snapshot()), PageView(url, title, now, referrer))
      ensures !old(pageViewTracked) ==>
        reporter.enqueued == old(reporter.enqueued) + [PageView(url, title, now, referrer)]
      ensures reporter.delivered == old(reporter.delivered) && reporter.intervals == old(reporter.intervals)
    {
      if !pageViewTracked {
        TrackPageView(url, title, referrer, now);
        pageViewTracked := true;
      }
    }

    /** The click listener's body. */
    method HandleClick(target: Element, x: int, y: int, now: int)
      requires Valid()
      modifies reporter
      ensures Valid()
      ensures reporter.Snapshot() == ReportSpec.AddToQueue(old(reporter.Snapshot()), ClickRecord(target, x, y, now))
      ensures reporter.enqueued == old(reporter.enqueued) + [ClickRecord(target, x, y, now)]
      ensures reporter.delivered == old(reporter.delivered) && reporter.intervals == old(reporter.intervals)
    {
      var clickData := Click(now, x, y, GetElementSelector(target), target.tagName, ClickText(target.innerText));
      reporter.AddToQueue(clickData);
    }

    /** `monitorPageStay` captures the current time. */
    method MonitorPageStay(now: int)
      modifies this
      ensures startTime == Some(now) && pageViewTracked == old(pageViewTracked)
    {
      startTime := Some(now);
    }

    /** The `visibilitychange` listener: hiding reports the time spent since the start time,
        which stays as it is; showing restarts the clock and reports nothing. */
    method OnVisibilityChange(hidden: bool, now: int)
      requires Valid() && startTime.Some?
      modifies this, reporter
      ensures Valid() && pageViewTracked == old(pageViewTracked)
      ensures hidden ==> startTime == old(startTime)
      ensures hidden ==>
        reporter.Snapshot() == ReportSpec.AddToQueue(old(reporter.Snapshot()), PageStay(now - old(startTime).value, now))
      ensures hidden ==>
        reporter.enqueued == old(reporter.enqueued) + [PageStay(now - old(startTime).value, now)]
      ensures reporter.delivered == old(reporter.delivered) && reporter.intervals == old(reporter.intervals)
      ensures !hidden ==> startTime == Some(now) && unchanged(reporter)
    {
      if hidden {
        var stayData := PageStay(now - startTime.value, now);
        reporter.AddToQueue(stayData);
      } else {
        startTime := Some(now);
      }
    }

    /** The body of the global `trackEvent(eventName, eventData)` function. */
    method TrackEvent(eventName: string, eventData: string, now: int)
      requires Valid()
      modifies reporter
      ensures Valid()
      ensures reporter.Snapshot() == ReportSpec.AddToQueue(old(reporter.Snapshot()), CustomEvent(eventName, eventData, now))
      ensures reporter.enqueued == old(reporter.enqueued) + [CustomEvent(eventName, eventData, now)]
      ensures reporter.delivered == old(reporter.delivered) && reporter.intervals == old(reporter.intervals)
    {
      reporter.AddToQueue(CustomEvent(eventName, eventData, now));
    }
  }
}
