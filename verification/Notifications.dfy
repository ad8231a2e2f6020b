/** Operator notifications (internal/notify/notify.go): two bounded queues, a worker that
    collects events into one message, counted drops, and the message itself. Strings are
    sequences of bytes. */
module Notifications {
  import opened Wrappers

  datatype Kind = Failing | Recovered | NotSaved | DBUnavailable | DBAvailable | TestMessage

  datatype Event = Event(kind: Kind, feed: string, feedId: string, failures: nat, error: string)

  datatype Format = Json | Ntfy

  /** The delivery format, the library's address, and the line that describes an event. */
  datatype Config = Config(format: Format, dashboard: string, describe: Event -> string)

  const QUEUE_SIZE := 256
  const MAX_BATCH := 256
  const MAX_GLOBAL := 8
  const MAX_LINES := 20
  const MAX_NTFY_BODY := 4000
  const MAX_DASHBOARD := 512

  /** Above any count a 64-bit program can hold: 10 to the 20th. */
  const COUNTS := 100_000_000_000_000_000_000

  /** Events about the whole server rather than one feed. */
  predicate Global(e: Event) { e.kind != Failing && e.kind != Recovered }

  predicate Alerting(e: Event) { e.kind == Failing || e.kind == NotSaved || e.kind == DBUnavailable }

  // ---------------------------------------------------------------- the message

  datatype Message = Message(text: string, events: seq<Event>, more: nat, alert: bool, test: bool)

  function Count(m: Message): nat { |m.events| + m.more }

  /** The server-wide events of a list, or the others, in their order. */
  function Kept(events: seq<Event>, global: bool): seq<Event> {
    if events == [] then []
    else
      var n := |events| - 1;
      Kept(events[..n], global) + if Global(events[n]) == global then [events[n]] else []
  }

  lemma {:induction false} KeptLengths(events: seq<Event>)
    ensures |Kept(events, true)| + |Kept(events, false)| == |events|
  {
    if events != [] { KeptLengths(events[..|events| - 1]); }
  }

  /** The stable sort by server-wide first. */
  function GlobalsFirst(events: seq<Event>): (r: seq<Event>)
    ensures |r| == |events|
  {
    KeptLengths(events);
    Kept(events, true) + Kept(events, false)
  }

  /** The sort loses no event, and keeps the order of server-wide events and of the others. */
  lemma SortingKeepsEvents(events: seq<Event>)
    ensures multiset(GlobalsFirst(events)) == multiset(events)
    ensures forall global :: Kept(GlobalsFirst(events), global) == Kept(events, global)
  {
    KeptIsAll(events);
    forall global ensures Kept(GlobalsFirst(events), global) == Kept(events, global) {
      KeptInTwo(Kept(events, true), Kept(events, false), global);
      KeptOfKept(events, true, global);
      KeptOfKept(events, false, global);
      assert Kept(events, global) + [] == Kept(events, global) && [] + Kept(events, global) == Kept(events, global);
    }
  }

  lemma {:induction false} KeptIsAll(events: seq<Event>)
    ensures multiset(Kept(events, true)) + multiset(Kept(events, false)) == multiset(events)
    decreases |events|
  {
    if events != [] {
      var n := |events| - 1;
      KeptIsAll(events[..n]);
      assert events == events[..n] + [events[n]];
    }
  }

  lemma {:induction false} KeptInTwo(a: seq<Event>, b: seq<Event>, global: bool)
    ensures Kept(a + b, global) == Kept(a, global) + Kept(b, global)
    decreases |b|
  {
    if b == [] {
      assert a + b == a;
    } else {
      var n := |b| - 1;
      KeptInTwo(a, b[..n], global);
      assert (a + b)[..|a| + n] == a + b[..n];
    }
  }

  lemma {:induction false} KeptOfKept(events: seq<Event>, kept: bool, global: bool)
    ensures Kept(Kept(events, kept), global) == if kept == global then Kept(events, kept) else []
    decreases |events|
  {
    if events != [] {
      var n := |events| - 1;
      KeptOfKept(events[..n], kept, global);
      var front := Kept(events[..n], kept);
      assert (front + [events[n]])[..|front|] == front && front + [] == front;
    }
  }

  const MORE_START := "...and "
  const MORE_END := " more.\n"
  const LIBRARY := "\nLibrary: "

  function MoreLine(more: nat): string { if more == 0 then "" else MORE_START + Decimal(more) + MORE_END }

  function LibraryLine(c: Config): string { if c.dashboard == "" then "" else LIBRARY + c.dashboard + "\n" }

  /** Bytes an ntfy body keeps for what follows the lines. */
  function Reserve(c: Config): nat {
    |MORE_START| + |MORE_END| + 20 + if c.dashboard == "" then 0 else |LIBRARY| + |c.dashboard| + 1
  }

  function Line(c: Config, e: Event): string { c.describe(e) + "\n" }

  function Lines(c: Config, events: seq<Event>): string {
    if events == [] then "" else Lines(c, events[..|events| - 1]) + Line(c, events[|events| - 1])
  }

  function WithoutLastBreak(s: string): string { if s != "" && s[|s| - 1] == '\n' then s[..|s| - 1] else s }

  function Body(c: Config, events: seq<Event>, more: nat): string {
    WithoutLastBreak(Lines(c, events) + MoreLine(more) + LibraryLine(c))
  }

  /** The next event still fits after those already listed. */
  predicate HasRoom(c: Config, listed: seq<Event>, e: Event) {
    |listed| < MAX_LINES && (c.format.Ntfy? ==> |Lines(c, listed + [e])| <= MAX_NTFY_BODY - Reserve(c))
  }

  /** Each of these events had room when it was listed. */
  predicate AllHadRoom(c: Config, listed: seq<Event>) {
    listed == [] || (AllHadRoom(c, listed[..|listed| - 1]) && HasRoom(c, listed[..|listed| - 1], listed[|listed| - 1]))
  }

  predicate SomeAlerting(events: seq<Event>) {
    events != [] && (SomeAlerting(events[..|events| - 1]) || Alerting(events[|events| - 1]))
  }

  predicate SomeTest(events: seq<Event>) {
    events != [] && (SomeTest(events[..|events| - 1]) || events[|events| - 1].kind.TestMessage?)
  }

  lemma {:induction false} SomeAlertingMeans(events: seq<Event>)
    ensures SomeAlerting(events) <==> exists e :: e in events && Alerting(e)
    decreases |events|
  {
    if events != [] {
      var n := |events| - 1;
      SomeAlertingMeans(events[..n]);
      assert events == events[..n] + [events[n]];
    }
  }

  lemma {:induction false} SomeTestMeans(events: seq<Event>)
    ensures SomeTest(events) <==> exists e :: e in events && e.kind == TestMessage
    decreases |events|
  {
    if events != [] {
      var n := |events| - 1;
      SomeTestMeans(events[..n]);
      assert events == events[..n] + [events[n]];
    }
  }

  /** The kinds in a list decide, not their order. */
  lemma SortKeepsAlerts(events: seq<Event>)
    ensures SomeAlerting(GlobalsFirst(events)) == SomeAlerting(events)
    ensures SomeTest(GlobalsFirst(events)) == SomeTest(events)
  {
    KeptAlerts(events);
    BothAlert(Kept(events, true), Kept(events, false));
  }

  lemma {:induction false} KeptAlerts(events: seq<Event>)
    ensures SomeAlerting(events) <==> SomeAlerting(Kept(events, true)) || SomeAlerting(Kept(events, false))
    ensures SomeTest(events) <==> SomeTest(Kept(events, true)) || SomeTest(Kept(events, false))
    decreases |events|
  {
    if events != [] {
      var n := |events| - 1;
      KeptAlerts(events[..n]);
      BothAlert(Kept(events[..n], Global(events[n])), [events[n]]);
      assert [events[n]][..0] == [];
      assert Kept(events[..n], !Global(events[n])) + [] == Kept(events[..n], !Global(events[n]));
    }
  }

  lemma {:induction false} BothAlert(a: seq<Event>, b: seq<Event>)
    ensures SomeAlerting(a + b) <==> SomeAlerting(a) || SomeAlerting(b)
    ensures SomeTest(a + b) <==> SomeTest(a) || SomeTest(b)
    decreases |b|
  {
    if b == [] {
      assert a + b == a;
    } else {
      var n := |b| - 1;
      BothAlert(a, b[..n]);
      assert (a + b)[..|a| + n] == a + b[..n];
    }
  }

  lemma OneMoreEvent(c: Config, sorted: seq<Event>, i: nat)
    requires i < |sorted|
    ensures SomeAlerting(sorted[..i + 1]) == (SomeAlerting(sorted[..i]) || Alerting(sorted[i]))
    ensures SomeTest(sorted[..i + 1]) == (SomeTest(sorted[..i]) || sorted[i].kind.TestMessage?)
    ensures Lines(c, sorted[..i + 1]) == Lines(c, sorted[..i]) + Line(c, sorted[i])
    ensures AllHadRoom(c, sorted[..i + 1]) == (AllHadRoom(c, sorted[..i]) && HasRoom(c, sorted[..i], sorted[i]))
  {
    assert sorted[..i + 1] == sorted[..i] + [sorted[i]];
    assert sorted[..i + 1][..i] == sorted[..i];
  }

  lemma RoomForNext(c: Config, sorted: seq<Event>, i: nat)
    requires i < |sorted|
    ensures HasRoom(c, sorted[..i], sorted[i])
            <==> i < MAX_LINES && (c.format.Ntfy? ==>
                |Lines(c, sorted[..i])| + |Line(c, sorted[i])| <= MAX_NTFY_BODY - Reserve(c))
  {
    OneMoreEvent(c, sorted, i);
    assert sorted[..i + 1] == sorted[..i] + [sorted[i]];
  }

  /** The message of a batch: it lists events, server-wide ones first, until one does not
      fit, and counts the rest. */
  ghost predicate IsMessage(c: Config, events: seq<Event>, extra: nat, m: Message) {
    && m.events <= GlobalsFirst(events) && |m.events| <= MAX_LINES
    && Count(m) == |events| + extra
    && AllHadRoom(c, m.events)
    && (|m.events| < |events| ==> !HasRoom(c, m.events, GlobalsFirst(events)[|m.events|]))
    && m.text == Body(c, m.events, m.more)
    && m.alert == SomeAlerting(events) && m.test == SomeTest(events)
  }

  lemma {:induction false} LinesInTwo(c: Config, a: seq<Event>, b: seq<Event>)
    ensures Lines(c, a + b) == Lines(c, a) + Lines(c, b)
    decreases |b|
  {
    if b == [] {
      assert a + b == a;
    } else {
      var n := |b| - 1;
      LinesInTwo(c, a, b[..n]);
      assert (a + b)[..|a| + n] == a + b[..n];
    }
  }

  lemma OneLine(c: Config, e: Event)
    ensures Lines(c, [e]) == c.describe(e) + "\n"
  {
    assert [e][..0] == [] && "" + Line(c, e) == Line(c, e);
  }

  /** The line of each listed event stands in the text after those before it. */
  lemma LineStands(c: Config, events: seq<Event>, i: nat)
    requires i < |events|
    ensures Lines(c, events) == Lines(c, events[..i]) + ((c.describe(events[i]) + "\n") + Lines(c, events[i + 1..]))
  {
    var e, rest := [events[i]], events[i + 1..];
    assert events == events[..i] + events[i..] && events[i..] == e + rest;
    LinesInTwo(c, events[..i], events[i..]);
    LinesInTwo(c, e, rest);
    OneLine(c, events[i]);
  }

  /** What a message says: the lines of the events it lists, then in numbers how many it
      does not list, then where the library is; but for the last line break. */
  lemma MessageSays(c: Config, events: seq<Event>, extra: nat, m: Message)
    requires IsMessage(c, events, extra, m)
    ensures m.more == |events| + extra - |m.events|
    ensures var rest := if m.more == 0 then "" else "...and " + Decimal(m.more) + " more.\n";
      var place := if c.dashboard == "" then "" else "\nLibrary: " + c.dashboard + "\n";
      var all := Lines(c, m.events) + rest + place;
      if all == "" then m.text == "" else m.text + "\n" == all
    ensures m.alert <==> exists e :: e in events && e.kind in {Failing, NotSaved, DBUnavailable}
    ensures m.test <==> exists e :: e in events && e.kind == TestMessage
  {
    SomeAlertingMeans(events);
    SomeTestMeans(events);
    if m.events != [] { EndsInBreak(c, m.events); }
    LastBreak(Lines(c, m.events), MoreLine(m.more), LibraryLine(c));
  }

  predicate Broken(s: string) { s == "" || s[|s| - 1] == '\n' }

  /** Of three texts that each end in a line break, if in anything, only the last is cut. */
  lemma LastBreak(a: string, b: string, c: string)
    requires Broken(a) && Broken(b) && Broken(c)
    ensures var all := a + b + c;
      if all == "" then WithoutLastBreak(all) == "" else WithoutLastBreak(all) + "\n" == all
  {
    var all := a + b + c;
    if all != "" { assert all[|all| - 1] == '\n' && all[..|all| - 1] + "\n" == all; }
  }

  lemma EndsInBreak(c: Config, events: seq<Event>)
    requires events != []
    ensures Lines(c, events) != "" && Lines(c, events)[|Lines(c, events)| - 1] == '\n'
  {
  }

  /** What compose has after the first `i` events. */
  ghost predicate ComposedTo(c: Config, sorted: seq<Event>, i: nat, lines: string, listed: nat, more: nat, alert: bool,
                             test: bool)
    requires i <= |sorted|
  {
    && alert == SomeAlerting(sorted[..i]) && test == SomeTest(sorted[..i])
    && listed <= i && listed <= MAX_LINES && lines == Lines(c, sorted[..listed])
    && more == (if listed == i then 0 else |sorted| - listed)
    && AllHadRoom(c, sorted[..listed])
    && (listed < i ==> !HasRoom(c, sorted[..listed], sorted[listed]))
  }

  lemma ComposeNext(c: Config, sorted: seq<Event>, i: nat, lines: string, listed: nat, more: nat, alert: bool,
                    test: bool)
    requires i < |sorted| && ComposedTo(c, sorted, i, lines, listed, more, alert, test)
    ensures var e, line := sorted[i], Line(c, sorted[i]);
      var full := listed == MAX_LINES || (c.format.Ntfy? && |lines| + |line| > MAX_NTFY_BODY - Reserve(c));
      var alert', test' := alert || Alerting(e), test || e.kind.TestMessage?;
      if more != 0 then ComposedTo(c, sorted, i + 1, lines, listed, more, alert', test')
      else if full then ComposedTo(c, sorted, i + 1, lines, listed, |sorted| - i, alert', test')
      else ComposedTo(c, sorted, i + 1, lines + line, listed + 1, 0, alert', test')
  {
    OneMoreEvent(c, sorted, i);
    RoomForNext(c, sorted, i);
  }

  lemma ComposedMessage(c: Config, events: seq<Event>, extra: nat, lines: string, listed: nat, more: nat, alert: bool,
                        test: bool)
    requires ComposedTo(c, GlobalsFirst(events), |GlobalsFirst(events)|, lines, listed, more, alert, test)
    ensures var shown := GlobalsFirst(events)[..listed];
      IsMessage(c, events, extra, Message(Body(c, shown, more + extra), shown, more + extra, alert, test))
  {
    SortKeepsAlerts(events);
    assert GlobalsFirst(events)[..|GlobalsFirst(events)|] == GlobalsFirst(events);
  }

  /** compose. */
  method Compose(c: Config, events: seq<Event>, extra: nat) returns (m: Message)
    ensures IsMessage(c, events, extra, m)
  {
    var sorted := GlobalsFirst(events);
    var lines, listed: nat, more: nat, alert, test := "", 0, 0, false, false;
    for i := 0 to |sorted|
      invariant ComposedTo(c, sorted, i, lines, listed, more, alert, test)
    {
      var e := sorted[i];
      ComposeNext(c, sorted, i, lines, listed, more, alert, test);
      alert, test := alert || Alerting(e), test || e.kind.TestMessage?;
      if more == 0 {
        var line := Line(c, e);
        if listed == MAX_LINES || (c.format.Ntfy? && |lines| + |line| > MAX_NTFY_BODY - Reserve(c)) {
          more := |sorted| - i;
        } else {
          listed, lines := listed + 1, lines + line;
        }
      }
    }
    ComposedMessage(c, events, extra, lines, listed, more, alert, test);
    more := more + extra;
    m := Message(Body(c, sorted[..listed], more), sorted[..listed], more, alert, test);
  }

  lemma {:induction false} DecimalLength(n: nat, digits: nat, bound: nat)
    requires 0 < digits && n < bound && bound == Power10(digits)
    ensures |Decimal(n)| <= digits
    decreases digits
  {
    if n >= 10 { DecimalLength(n / 10, digits - 1, Power10(digits - 1)); }
  }

  function Power10(n: nat): nat { if n == 0 then 1 else 10 * Power10(n - 1) }

  lemma TwentyDigits(n: nat)
    requires n < COUNTS
    ensures |Decimal(n)| <= 20
  {
    assert Power10(5) == 100_000;
    assert Power10(10) == 10_000_000_000;
    assert Power10(15) == 1_000_000_000_000_000;
    assert Power10(20) == COUNTS;
    DecimalLength(n, 20, COUNTS);
  }

  lemma {:induction false} LongDecimal(n: nat, digits: nat, floor: nat)
    requires 0 < digits && floor == Power10(digits - 1) && floor <= n
    ensures digits <= |Decimal(n)|
    decreases digits
  {
    if digits > 1 { LongDecimal(n / 10, digits - 1, floor / 10); }
  }

  /** The bytes reserved are those of the longest count there can be and of the library line. */
  lemma ReserveIsExact(c: Config)
    ensures |MoreLine(COUNTS - 1)| + |LibraryLine(c)| == Reserve(c)
    ensures forall more: nat | more < COUNTS :: |MoreLine(more)| + |LibraryLine(c)| <= Reserve(c)
  {
    assert Power10(4) == 10_000;
    assert Power10(9) == 1_000_000_000;
    assert Power10(14) == 100_000_000_000_000;
    assert Power10(19) == COUNTS / 10;
    LongDecimal(COUNTS - 1, 20, COUNTS / 10);
    forall more: nat | more < COUNTS ensures |Decimal(more)| <= 20 { TwentyDigits(more); }
  }

  lemma {:induction false} ListedFits(c: Config, events: seq<Event>)
    requires c.format.Ntfy? && AllHadRoom(c, events)
    ensures events == [] || |Lines(c, events)| <= MAX_NTFY_BODY - Reserve(c)
  {
    if events != [] {
      var n := |events| - 1;
      assert events[..n] + [events[n]] == events;
    }
  }

  /** An ntfy message stays within 4,000 bytes whatever the events and what describes
      them, with any address New keeps. */
  lemma NtfyBodyFits(c: Config, events: seq<Event>, extra: nat, m: Message)
    requires IsMessage(c, events, extra, m)
    requires c.format.Ntfy? && |c.dashboard| <= 512 && |events| + extra < COUNTS
    ensures |m.text| <= 4000
  {
    ListedFits(c, m.events);
    TwentyDigits(m.more);
  }

  /** A JSON message lists every server-wide event of a batch, which keeps eight at most. */
  lemma JsonListsGlobals(c: Config, events: seq<Event>, extra: nat, m: Message, e: Event)
    requires IsMessage(c, events, extra, m) && c.format.Json?
    requires |Kept(events, true)| <= 8 && e in events && Global(e)
    ensures e in m.events
  {
    KeptAll(events, e);
    KeptLengths(events);
    PrefixHas(m.events, Kept(events, true), Kept(events, false), e);
  }

  lemma PrefixHas(listed: seq<Event>, first: seq<Event>, rest: seq<Event>, e: Event)
    requires listed <= first + rest && |first| <= |listed| && e in first
    ensures e in listed
  {
    var i :| 0 <= i < |first| && first[i] == e;
    assert listed[i] == (first + rest)[i];
  }

  lemma {:induction false} KeptAll(events: seq<Event>, e: Event)
    requires e in events
    ensures e in Kept(events, Global(e))
    decreases |events|
  {
    var n := |events| - 1;
    if e != events[n] {
      assert events == events[..n] + [events[n]];
      KeptAll(events[..n], e);
    }
  }

  // ---------------------------------------------------------------- the batch

  datatype Pending = Pending(events: seq<Event>, globals: nat, extra: nat, alert: bool)

  const EMPTY := Pending([], 0, 0, false)

  /** batch.add. */
  function Added(b: Pending, e: Event): Pending {
    var seen := b.(alert := b.alert || Alerting(e));
    if Global(e) && b.globals < MAX_GLOBAL then seen.(events := b.events + [e], globals := b.globals + 1)
    else if !Global(e) && |b.events| - b.globals < MAX_BATCH then seen.(events := b.events + [e])
    else seen.(extra := b.extra + 1)
  }

  class Batch {
    var events: seq<Event>
    var globals: nat
    var extra: nat
    var alert: bool

    ghost function State(): Pending reads this { Pending(events, globals, extra, alert) }

    constructor ()
      ensures State() == EMPTY
    {
      events, globals, extra, alert := [], 0, 0, false;
    }

    method Add(e: Event)
      modifies this
      ensures State() == Added(old(State()), e)
    {
      alert := alert || Alerting(e);
      if Global(e) && globals < MAX_GLOBAL {
        globals := globals + 1;
      } else if !Global(e) && |events| - globals < MAX_BATCH {
      } else {
        extra := extra + 1;
        return;
      }
      events := events + [e];
    }
  }

  /** The batch after the events it was given. */
  function Collected(given: seq<Event>): Pending {
    if given == [] then EMPTY else Added(Collected(given[..|given| - 1]), given[|given| - 1])
  }

  function First(events: seq<Event>, limit: nat): seq<Event> { events[..Min(|events|, limit)] }

  lemma KeptOneMore(events: seq<Event>, e: Event, global: bool)
    ensures Kept(events + [e], global) == Kept(events, global) + if Global(e) == global then [e] else []
  {
    assert (events + [e])[..|events|] == events;
  }

  lemma FirstOneMore(events: seq<Event>, e: Event, limit: nat)
    ensures First(events + [e], limit) == First(events, limit) + if |events| < limit then [e] else []
  {
  }

  ghost predicate KeepsTheFirst(b: Pending, given: seq<Event>) {
    && Kept(b.events, true) == First(Kept(given, true), MAX_GLOBAL)
    && Kept(b.events, false) == First(Kept(given, false), MAX_BATCH)
    && b.globals == |Kept(b.events, true)|
    && |b.events| + b.extra == |given|
    && b.alert == SomeAlerting(given)
  }

  lemma AddSizes(b: Pending, e: Event)
    requires b.globals == |Kept(b.events, true)|
    ensures Added(b, e).globals == |Kept(Added(b, e).events, true)|
    ensures Kept(Added(b, e).events, true)
            == Kept(b.events, true) + if Global(e) && |Kept(b.events, true)| < MAX_GLOBAL then [e] else []
    ensures Kept(Added(b, e).events, false)
            == Kept(b.events, false) + if !Global(e) && |Kept(b.events, false)| < MAX_BATCH then [e] else []
    ensures |Added(b, e).events| + Added(b, e).extra == |b.events| + b.extra + 1
  {
    KeptLengths(b.events);
    KeptOneMore(b.events, e, true);
    KeptOneMore(b.events, e, false);
  }

  lemma AddKeepsTheFirst(b: Pending, given: seq<Event>, e: Event)
    requires KeepsTheFirst(b, given)
    ensures KeepsTheFirst(Added(b, e), given + [e])
  {
    AddSizes(b, e);
    KeptOneMore(given, e, true);
    KeptOneMore(given, e, false);
    FirstOneMore(Kept(given, true), e, MAX_GLOBAL);
    FirstOneMore(Kept(given, false), e, MAX_BATCH);
    assert (given + [e])[..|given|] == given;
  }

  /** A batch keeps the first eight server-wide events it is given and the first 256 of
      feeds, counts the others, and remembers whether any of all these needs attention. */
  lemma {:induction false} BatchKeepsTheFirst(given: seq<Event>)
    ensures KeepsTheFirst(Collected(given), given)
    ensures Kept(Collected(given).events, true) == First(Kept(given, true), 8)
    ensures Kept(Collected(given).events, false) == First(Kept(given, false), 256)
    decreases |given|
  {
    if given != [] {
      var n := |given| - 1;
      BatchKeepsTheFirst(given[..n]);
      AddKeepsTheFirst(Collected(given[..n]), given[..n], given[n]);
      assert given == given[..n] + [given[n]];
    }
  }

  // ---------------------------------------------------------------- the pipeline

  datatype Worker =
    | Waiting | Collecting | Flushing | Swapping(last: bool) | Asking(last: bool) | Composing(last: bool) | Stopped

  /** The notifier: its queues, counters and flag, the batch, the worker and the messages it
      composed. The rest is history: how many events were notified, what the batch was
      `given`, the drops no message has counted yet (`tallied`) and those the current one
      `counted`, the drops whose Notify has not come to the flag yet (`raising`), those the
      flag stands for (`lost`), and those for which the current message is `marked`. */
  datatype Pipe = Pipe(
    queue: seq<Event>, urgent: seq<Event>, dropped: nat, unlogged: nat, alertDropped: bool,
    batch: Pending, worker: Worker, messages: seq<Message>,
    notified: nat, given: seq<Event>, tallied: seq<Event>, counted: seq<Event>,
    raising: seq<Event>, lost: seq<Event>, marked: seq<Event>)

  const START := Pipe([], [], 0, 0, false, EMPTY, Waiting, [], 0, [], [], [], [], [], [])

  datatype Action =
    | Notify(e: Event)
    | Raise(k: nat)
    | TakeUrgent
    | TakeQueue
    | WindowEnds
    | Stop
    | Drained
    | SwapDrops
    | SwapAlert
    | Send(m: Message)
    | Skip

  /** Notify up to its counters: one of two queues, or a counted drop when it is full. */
  function Notified(p: Pipe, e: Event): Pipe {
    var p := p.(notified := p.notified + 1);
    if Global(e) && |p.urgent| < MAX_GLOBAL then p.(urgent := p.urgent + [e])
    else if !Global(e) && |p.queue| < QUEUE_SIZE then p.(queue := p.queue + [e])
    else p.(dropped := p.dropped + 1, unlogged := p.unlogged + 1, tallied := p.tallied + [e],
            raising := p.raising + [e])
  }

  /** Its last statement, for a dropped event. */
  function Raised(p: Pipe, k: nat): Pipe
    requires k < |p.raising|
  {
    p.(alertDropped := p.alertDropped || Alerting(p.raising[k]),
       raising := p.raising[..k] + p.raising[k + 1..], lost := p.lost + [p.raising[k]])
  }

  predicate Receiving(w: Worker) { w.Waiting? || w.Collecting? || w.Flushing? }

  function Received(p: Pipe, e: Event): Pipe {
    p.(batch := Added(p.batch, e), given := p.given + [e],
       worker := if p.worker.Flushing? then Flushing else Collecting)
  }

  /** The worker's next batch, or its end. */
  function Next(p: Pipe): Pipe
    requires p.worker.Composing?
  {
    p.(batch := EMPTY, given := [], counted := [], marked := [], worker := if p.worker.last then Stopped else Waiting)
  }

  predicate Nothing(b: Pending) { b.events == [] && b.extra == 0 }

  predicate Enabled(p: Pipe, a: Action) {
    match a
    case Notify(_) => true
    case Raise(k) => k < |p.raising|
    case TakeUrgent => Receiving(p.worker) && p.urgent != []
    case TakeQueue => Receiving(p.worker) && p.queue != []
    case WindowEnds => p.worker.Collecting?
    case Stop => p.worker.Waiting? || p.worker.Collecting?
    case Drained => p.worker.Flushing? && p.urgent == [] && p.queue == []
    case SwapDrops => p.worker.Swapping?
    case SwapAlert => p.worker.Asking?
    case Send(_) => p.worker.Composing? && !Nothing(p.batch)
    case Skip => p.worker.Composing? && Nothing(p.batch)
  }

  function Step(p: Pipe, a: Action): Pipe
    requires Enabled(p, a)
  {
    match a
    case Notify(e) => Notified(p, e)
    case Raise(k) => Raised(p, k)
    case TakeUrgent => Received(p, p.urgent[0]).(urgent := p.urgent[1..])
    case TakeQueue => Received(p, p.queue[0]).(queue := p.queue[1..])
    case WindowEnds => p.(worker := Swapping(false))
    case Stop => p.(worker := Flushing)
    case Drained => p.(worker := Swapping(true))
    case SwapDrops =>
      p.(batch := p.batch.(extra := p.batch.extra + p.unlogged), unlogged := 0,
         counted := p.tallied, tallied := [], worker := Asking(p.worker.last))
    case SwapAlert =>
      p.(batch := p.batch.(alert := p.alertDropped || p.batch.alert), alertDropped := false,
         marked := p.lost, lost := [], worker := Composing(p.worker.last))
    case Send(m) => Next(p.(messages := p.messages + [m]))
    case Skip => Next(p)
  }

  /** What send passes on: the composed message, marked urgent for events only counted too. */
  ghost predicate IsSent(c: Config, b: Pending, m: Message) {
    && IsMessage(c, b.events, b.extra, m.(alert := SomeAlerting(b.events)))
    && m.alert == (SomeAlerting(b.events) || b.alert)
  }

  predicate SendsAt(actions: seq<Action>, i: nat)
    requires i < |actions|
  {
    actions[i].Send?
  }

  ghost predicate IsRun(c: Config, states: seq<Pipe>, actions: seq<Action>) {
    && |states| == |actions| + 1 && states[0] == START
    && (forall i {:trigger actions[i]} :: 0 <= i < |actions| ==>
          Enabled(states[i], actions[i]) && states[i + 1] == Step(states[i], actions[i]))
    && (forall i {:trigger SendsAt(actions, i)} :: 0 <= i < |actions| && SendsAt(actions, i) ==>
          IsSent(c, states[i].batch, actions[i].m))
  }

  predicate Counts(p: Pipe, a: Action) { a.Send? ==> Count(a.m) == |p.batch.events| + p.batch.extra }

  lemma RunStep(c: Config, states: seq<Pipe>, actions: seq<Action>, i: nat)
    requires IsRun(c, states, actions) && i < |actions|
    ensures Enabled(states[i], actions[i]) && Counts(states[i], actions[i])
    ensures states[i + 1] == Step(states[i], actions[i])
  {
    assert SendsAt(actions, i) == actions[i].Send?;
  }

  function Total(messages: seq<Message>): nat {
    if messages == [] then 0 else Total(messages[..|messages| - 1]) + Count(messages[|messages| - 1])
  }

  /** The batch is what it was given, then with what the current message counts and is
      marked for. */
  ghost predicate Batched(p: Pipe) {
    var b := Collected(p.given);
    && p.batch == b.(extra := b.extra + |p.counted|, alert := b.alert || SomeAlerting(p.marked))
    && (p.worker.Waiting? || p.worker.Stopped? ==> p.given == [])
    && (!p.worker.Asking? && !p.worker.Composing? ==> p.counted == [])
    && (!p.worker.Composing? ==> p.marked == [])
  }

  ghost predicate Conserved(p: Pipe) {
    && p.notified == Total(p.messages) + |p.queue| + |p.urgent| + |p.batch.events| + p.batch.extra + |p.tallied|
    && |p.queue| <= QUEUE_SIZE && |p.urgent| <= MAX_GLOBAL
    && p.unlogged == |p.tallied| && p.alertDropped == SomeAlerting(p.lost)
    && Batched(p)
  }

  lemma CollectedOneMore(given: seq<Event>, e: Event)
    ensures Collected(given + [e]) == Added(Collected(given), e)
  {
    assert (given + [e])[..|given|] == given;
  }

  lemma OneMoreAlert(events: seq<Event>, e: Event)
    ensures SomeAlerting(events + [e]) == (SomeAlerting(events) || Alerting(e))
  {
    assert (events + [e])[..|events|] == events;
  }

  lemma OneMoreMessage(messages: seq<Message>, m: Message)
    ensures Total(messages + [m]) == Total(messages) + Count(m)
  {
    assert (messages + [m])[..|messages|] == messages;
  }

  lemma AddedCounts(b: Pending, e: Event)
    ensures |Added(b, e).events| + Added(b, e).extra == |b.events| + b.extra + 1
  {
  }

  lemma NotifyKeeps(p: Pipe, e: Event)
    requires Conserved(p)
    ensures Conserved(Notified(p, e))
  {
  }

  lemma RaiseKeeps(p: Pipe, k: nat)
    requires Conserved(p) && k < |p.raising|
    ensures Conserved(Raised(p, k))
  {
    FlagKeeps(p, Raised(p, k).raising, p.raising[k]);
  }

  lemma FlagKeeps(p: Pipe, raising: seq<Event>, e: Event)
    requires Conserved(p)
    ensures Conserved(p.(alertDropped := p.alertDropped || Alerting(e), raising := raising, lost := p.lost + [e]))
  {
    OneMoreAlert(p.lost, e);
  }

  lemma ReceivingKeeps(p: Pipe, e: Event)
    requires Conserved(p) && Receiving(p.worker)
    ensures var after := Received(p, e);
      && Batched(after)
      && |after.batch.events| + after.batch.extra == |p.batch.events| + p.batch.extra + 1
  {
    CollectedOneMore(p.given, e);
    AddedCounts(p.batch, e);
  }

  lemma SwapKeeps(p: Pipe, a: Action)
    requires Conserved(p) && Enabled(p, a) && (a.SwapDrops? || a.SwapAlert?)
    ensures Conserved(Step(p, a))
  {
  }

  lemma SendingKeeps(p: Pipe, a: Action)
    requires Conserved(p) && Enabled(p, a) && (a.Send? || a.Skip?)
    requires Counts(p, a)
    ensures Conserved(Step(p, a))
  {
    if a.Send? { OneMoreMessage(p.messages, a.m); }
  }

  lemma StepKeeps(p: Pipe, a: Action)
    requires Conserved(p) && Enabled(p, a) && Counts(p, a)
    ensures Conserved(Step(p, a))
  {
    match a
    case Notify(e) => NotifyKeeps(p, e);
    case Raise(k) => RaiseKeeps(p, k);
    case TakeUrgent => ReceivingKeeps(p, p.urgent[0]);
    case TakeQueue => ReceivingKeeps(p, p.queue[0]);
    case SwapDrops => SwapKeeps(p, a);
    case SwapAlert => SwapKeeps(p, a);
    case Send(m) => SendingKeeps(p, a);
    case Skip => SendingKeeps(p, a);
    case _ =>
  }

  /** No event is lost or counted twice, however Notify, the worker, drops and shutdown
      interleave: what was notified is what the composed messages count, what waits, what
      the current batch holds, and the drops that the next message will count. */
  lemma {:induction false} EventsAreConserved(c: Config, states: seq<Pipe>, actions: seq<Action>, i: nat)
    requires IsRun(c, states, actions) && i < |states|
    ensures Conserved(states[i])
  {
    if i > 0 {
      EventsAreConserved(c, states, actions, i - 1);
      RunStep(c, states, actions, i - 1);
      StepKeeps(states[i - 1], actions[i - 1]);
    } else {
      StartIsConserved();
    }
  }

  /** A message counts at least one event. */
  lemma NoEmptyMessage(c: Config, states: seq<Pipe>, actions: seq<Action>, i: nat)
    requires IsRun(c, states, actions) && i < |actions| && actions[i].Send?
    ensures 0 < Count(actions[i].m)
  {
    RunStep(c, states, actions, i);
  }

  /** Notify drops an event when its queue holds 256 feed events, or eight server-wide ones,
      and only then, and counts exactly those. */
  lemma DropsAreCounted(c: Config, states: seq<Pipe>, actions: seq<Action>, i: nat)
    requires IsRun(c, states, actions) && i < |actions|
    ensures var p, next := states[i], states[i + 1];
      if actions[i].Notify? then
        var e := actions[i].e;
        var full := if Global(e) then |p.urgent| >= 8 else |p.queue| >= 256;
        && next.dropped == p.dropped + (if full then 1 else 0)
        && next.urgent == p.urgent + (if Global(e) && !full then [e] else [])
        && next.queue == p.queue + (if !Global(e) && !full then [e] else [])
      else
        next.dropped == p.dropped && |next.urgent| <= |p.urgent| && |next.queue| <= |p.queue|
  {
    RunStep(c, states, actions, i);
  }

  /** The last batch is on its way, or gone. */
  predicate Leaving(w: Worker) {
    w.Stopped? || ((w.Swapping? || w.Asking? || w.Composing?) && w.last)
  }

  /** What the messages count already, and what the last of them will. */
  function Handled(p: Pipe): nat {
    Total(p.messages) + |p.batch.events| + p.batch.extra + if p.worker.Swapping? then |p.tallied| else 0
  }

  lemma LeavingBegins(p: Pipe, a: Action)
    requires Enabled(p, a) && !Leaving(p.worker) && Leaving(Step(p, a).worker)
    requires p.notified == Total(p.messages) + |p.queue| + |p.urgent| + |p.batch.events| + p.batch.extra + |p.tallied|
    ensures a.Drained? && Handled(Step(p, a)) == p.notified
  {
  }

  lemma LeavingGoesOn(p: Pipe, a: Action)
    requires Enabled(p, a) && Counts(p, a) && Leaving(p.worker) && p.unlogged == |p.tallied|
    ensures Handled(p) <= Handled(Step(p, a))
  {
    if a.Send? { OneMoreMessage(p.messages, a.m); }
  }

  /** The worker stops only after it drained both queues, and when it has stopped, all that
      was notified until then is counted in messages. */
  lemma {:induction false} NothingLeftBehind(c: Config, states: seq<Pipe>, actions: seq<Action>, i: nat)
    returns (d: nat)
    requires IsRun(c, states, actions) && i < |states| && Leaving(states[i].worker)
    ensures d < i && actions[d].Drained? && states[d].notified <= Handled(states[i])
    ensures states[i].worker.Stopped? ==> Handled(states[i]) == Total(states[i].messages)
  {
    assert i > 0;
    EventsAreConserved(c, states, actions, i - 1);
    EventsAreConserved(c, states, actions, i);
    RunStep(c, states, actions, i - 1);
    if Leaving(states[i - 1].worker) {
      d := NothingLeftBehind(c, states, actions, i - 1);
      LeavingGoesOn(states[i - 1], actions[i - 1]);
    } else {
      d := i - 1;
      LeavingBegins(states[i - 1], actions[i - 1]);
    }
  }

  lemma StartIsConserved()
    ensures Conserved(START)
  {
  }

  /** Each queue holds its own kind of event. */
  ghost predicate Routed(p: Pipe) {
    AllAre(p.queue, false) && AllAre(p.urgent, true)
  }

  lemma StepKeepsRouting(p: Pipe, a: Action)
    requires Routed(p) && Enabled(p, a)
    ensures Routed(Step(p, a))
  {
  }

  lemma {:induction false} EventsAreRouted(c: Config, states: seq<Pipe>, actions: seq<Action>, i: nat)
    requires IsRun(c, states, actions) && i < |states|
    ensures Routed(states[i])
  {
    if i > 0 {
      EventsAreRouted(c, states, actions, i - 1);
      RunStep(c, states, actions, i - 1);
      StepKeepsRouting(states[i - 1], actions[i - 1]);
    }
  }

  /** Whatever the run, a message that is sent counts what its batch was given and the
      drops swapped in, is urgent for the first and for the drops its flag stood for, and
      fits an ntfy body, or lists every server-wide event its batch kept when it is JSON. */
  lemma MessagesAreRight(c: Config, states: seq<Pipe>, actions: seq<Action>, i: nat)
    requires IsRun(c, states, actions) && i < |actions| && actions[i].Send?
    requires |c.dashboard| <= 512 && states[i].notified < COUNTS
    ensures var p, m := states[i], actions[i].m;
      && Count(m) == |p.given| + |p.counted|
      && (m.alert <==> SomeAlerting(p.given) || SomeAlerting(p.marked))
      && |m.events| <= 20
      && (c.format.Ntfy? ==> |m.text| <= 4000)
      && (c.format.Json? ==> forall e :: e in First(Kept(p.given, true), 8) ==> e in m.events)
  {
    EventsAreConserved(c, states, actions, i);
    var p, m := states[i], actions[i].m.(alert := SomeAlerting(states[i].batch.events));
    assert SendsAt(actions, i);
    BatchKeepsTheFirst(p.given);
    KeptAlerts(p.batch.events);
    if c.format.Ntfy? { NtfyBodyFits(c, p.batch.events, p.batch.extra, m); }
    forall e | c.format.Json? && e in First(Kept(p.given, true), 8) ensures e in m.events {
      KeptFrom(p.batch.events, true, e);
      JsonListsGlobals(c, p.batch.events, p.batch.extra, m, e);
    }
    KeptAreGiven(p);
  }

  /** What a batch keeps is alerting only when something it was given is. */
  lemma KeptAreGiven(p: Pipe)
    requires Conserved(p)
    ensures SomeAlerting(p.batch.events) ==> SomeAlerting(p.given)
  {
    BatchKeepsTheFirst(p.given);
    KeptAlerts(p.batch.events);
    KeptAlerts(p.given);
    FirstAlerts(Kept(p.given, true), MAX_GLOBAL);
    FirstAlerts(Kept(p.given, false), MAX_BATCH);
  }

  lemma FirstAlerts(events: seq<Event>, limit: nat)
    ensures SomeAlerting(First(events, limit)) ==> SomeAlerting(events)
  {
    BothAlert(First(events, limit), events[Min(|events|, limit)..]);
    assert First(events, limit) + events[Min(|events|, limit)..] == events;
  }

  lemma {:induction false} KeptFrom(events: seq<Event>, global: bool, e: Event)
    requires e in Kept(events, global)
    ensures e in events && Global(e) == global
    decreases |events|
  {
    var n := |events| - 1;
    if e in Kept(events[..n], global) { KeptFrom(events[..n], global, e); }
  }

  // ---------------------------------------------------------------- urgency

  /** Whether dropped events of these kinds only are between the counter and the flag when
      send swaps the counter, or come to either while it has yet to swap the flag. */
  ghost predicate MayRace(p: Pipe, a: Action, kinds: set<Kind>) {
    && (a.SwapDrops? ==> forall e | e in p.raising :: e.kind in kinds)
    && (p.worker.Asking? && a.Notify? && Notified(p, a.e).raising != p.raising ==> a.e.kind in kinds)
    && (p.worker.Asking? && a.Raise? && a.k < |p.raising| ==> p.raising[a.k].kind in kinds)
  }

  ghost predicate OnlyRace(states: seq<Pipe>, actions: seq<Action>, kinds: set<Kind>)
    requires |states| == |actions| + 1
  {
    forall i {:trigger actions[i]} :: 0 <= i < |actions| ==> MayRace(states[i], actions[i], kinds)
  }

  /** A message about to be composed is urgent exactly when some event it counts is. */
  ghost predicate Urgent(p: Pipe) {
    p.worker.Composing? ==> (p.batch.alert <==> SomeAlerting(p.given) || SomeAlerting(p.counted))
  }

  predicate Harmless(kinds: set<Kind>) { Failing !in kinds && NotSaved !in kinds && DBUnavailable !in kinds }

  /** Of alerting drops, the flag and the counter tell the same. */
  ghost predicate InStep(p: Pipe) {
    && (p.worker.Asking? ==>
          SomeAlerting(p.counted) == SomeAlerting(p.lost) && !SomeAlerting(p.tallied) && !SomeAlerting(p.raising))
    && (!p.worker.Asking? ==> SomeAlerting(p.tallied) == (SomeAlerting(p.raising) || SomeAlerting(p.lost)))
    && (p.worker.Composing? ==> SomeAlerting(p.counted) == SomeAlerting(p.marked))
  }

  lemma RaisedOut(events: seq<Event>, k: nat)
    requires k < |events|
    ensures SomeAlerting(events) == (SomeAlerting(events[..k] + events[k + 1..]) || Alerting(events[k]))
  {
    BothAlert(events[..k], events[k + 1..]);
    BothAlert(events[..k + 1], events[k + 1..]);
    assert events == events[..k + 1] + events[k + 1..];
    assert events[..k + 1] == events[..k] + [events[k]];
    OneMoreAlert(events[..k], events[k]);
  }

  lemma NotifyInStep(p: Pipe, e: Event, kinds: set<Kind>)
    requires InStep(p) && Harmless(kinds) && MayRace(p, Action.Notify(e), kinds)
    ensures InStep(Notified(p, e))
  {
    OneMoreAlert(p.tallied, e);
    OneMoreAlert(p.raising, e);
  }

  lemma RaiseInStep(p: Pipe, k: nat, kinds: set<Kind>)
    requires InStep(p) && Harmless(kinds) && k < |p.raising| && MayRace(p, Raise(k), kinds)
    ensures InStep(Raised(p, k))
  {
    RaisedOut(p.raising, k);
    OneMoreAlert(p.lost, p.raising[k]);
  }

  lemma SwapInStep(p: Pipe, kinds: set<Kind>)
    requires InStep(p) && Harmless(kinds) && p.worker.Swapping? && MayRace(p, SwapDrops, kinds)
    ensures InStep(Step(p, SwapDrops))
  {
    SomeAlertingMeans(p.raising);
  }

  lemma StepKeepsInStep(p: Pipe, a: Action, kinds: set<Kind>)
    requires InStep(p) && Enabled(p, a) && Harmless(kinds) && MayRace(p, a, kinds)
    ensures InStep(Step(p, a))
  {
    match a
    case Notify(e) => NotifyInStep(p, e, kinds);
    case Raise(k) => RaiseInStep(p, k, kinds);
    case SwapDrops => SwapInStep(p, kinds);
    case _ =>
  }

  lemma {:induction false} HarmlessIsInStep(c: Config, states: seq<Pipe>, actions: seq<Action>, kinds: set<Kind>,
                                            i: nat)
    requires IsRun(c, states, actions) && OnlyRace(states, actions, kinds) && Harmless(kinds) && i < |states|
    ensures InStep(states[i])
  {
    if i > 0 {
      HarmlessIsInStep(c, states, actions, kinds, i - 1);
      RunStep(c, states, actions, i - 1);
      assert MayRace(states[i - 1], actions[i - 1], kinds);
      StepKeepsInStep(states[i - 1], actions[i - 1], kinds);
    }
  }

  /** Where only harmless drops race with send, every message is as urgent as what it counts. */
  lemma HarmlessIsUrgent(c: Config, states: seq<Pipe>, actions: seq<Action>, kinds: set<Kind>, i: nat)
    requires IsRun(c, states, actions) && OnlyRace(states, actions, kinds) && Harmless(kinds) && i < |states|
    ensures Urgent(states[i])
  {
    EventsAreConserved(c, states, actions, i);
    HarmlessIsInStep(c, states, actions, kinds, i);
    BatchKeepsTheFirst(states[i].given);
  }

  function SendOf(sent: Option<Message>): Action { if sent.Some? then Action.Send(sent.value) else Skip }

  /** A run goes on with any enabled action. */
  lemma Extended(c: Config, states: seq<Pipe>, actions: seq<Action>, a: Action)
    returns (states': seq<Pipe>, actions': seq<Action>)
    requires IsRun(c, states, actions) && Enabled(states[|actions|], a)
    requires a.Send? ==> IsSent(c, states[|actions|].batch, a.m)
    ensures actions' == actions + [a] && states' == states + [Step(states[|actions|], a)]
    ensures IsRun(c, states', actions')
  {
    states', actions' := states + [Step(states[|actions|], a)], actions + [a];
    forall i | 0 <= i < |actions'|
      ensures Enabled(states'[i], actions'[i]) && states'[i + 1] == Step(states'[i], actions'[i])
    {
      if i < |actions| { RanBefore(c, states, actions, states'[|actions| + 1], a, i); }
    }
    SentOn(c, states, actions, states'[|actions| + 1], a);
  }

  lemma SentOn(c: Config, states: seq<Pipe>, actions: seq<Action>, p: Pipe, a: Action)
    requires IsRun(c, states, actions) && (a.Send? ==> IsSent(c, states[|actions|].batch, a.m))
    ensures var states', actions' := states + [p], actions + [a];
      forall i {:trigger SendsAt(actions', i)} | 0 <= i < |actions'| && SendsAt(actions', i) ::
        IsSent(c, states'[i].batch, actions'[i].m)
  {
    var actions' := actions + [a];
    forall i | 0 <= i < |actions'| && SendsAt(actions', i) ensures IsSent(c, (states + [p])[i].batch, actions'[i].m) {
      SentAt(c, states, actions, p, a, i);
    }
  }

  lemma SentAt(c: Config, states: seq<Pipe>, actions: seq<Action>, p: Pipe, a: Action, i: nat)
    requires IsRun(c, states, actions) && (a.Send? ==> IsSent(c, states[|actions|].batch, a.m))
    requires i <= |actions| && (actions + [a])[i].Send?
    ensures IsSent(c, (states + [p])[i].batch, (actions + [a])[i].m)
  {
    assert (states + [p])[i] == states[i];
    if i < |actions| {
      assert (actions + [a])[i] == actions[i];
      SentBefore(c, states, actions, i);
    }
  }

  lemma RanBefore(c: Config, states: seq<Pipe>, actions: seq<Action>, p: Pipe, a: Action, i: nat)
    requires IsRun(c, states, actions) && i < |actions|
    ensures var states', actions' := states + [p], actions + [a];
      && states'[i] == states[i] && actions'[i] == actions[i]
      && Enabled(states'[i], actions'[i]) && states'[i + 1] == Step(states'[i], actions'[i])
  {
    RunStep(c, states, actions, i);
  }

  lemma SentBefore(c: Config, states: seq<Pipe>, actions: seq<Action>, i: nat)
    requires IsRun(c, states, actions) && i < |actions| && actions[i].Send?
    ensures IsSent(c, states[i].batch, actions[i].m)
  {
    assert SendsAt(actions, i);
  }

  /** A run that goes on with what these kinds allow. */
  lemma Raced(c: Config, states: seq<Pipe>, actions: seq<Action>, a: Action, kinds: set<Kind>)
    returns (states': seq<Pipe>, actions': seq<Action>)
    requires IsRun(c, states, actions) && OnlyRace(states, actions, kinds)
    requires Enabled(states[|actions|], a) && !a.Send? && MayRace(states[|actions|], a, kinds)
    ensures IsRun(c, states', actions') && OnlyRace(states', actions', kinds)
    ensures states'[|actions'|] == Step(states[|actions|], a)
  {
    states', actions' := Extended(c, states, actions, a);
    forall i | 0 <= i < |actions'| ensures MayRace(states'[i], actions'[i], kinds) {
      if i < |actions| { assert actions'[i] == actions[i] && states'[i] == states[i]; }
    }
  }

  /** An event that needs no attention, for the same queue as those of a kind. */
  function Quiet(kind: Kind): Event { Event(if kind == Failing then Recovered else DBAvailable, "", "", 0, "") }

  function Loud(kind: Kind): Event { Event(kind, "", "", 0, "") }

  function Places(kind: Kind): nat { if kind == Failing then QUEUE_SIZE else MAX_GLOBAL }

  /** The start with some events in the queue of a kind. */
  function Queued(kind: Kind, events: seq<Event>): Pipe {
    START.(queue := if kind == Failing then events else [], urgent := if kind == Failing then [] else events,
           notified := |events|)
  }

  /** A run in which the queue of a kind fills up with harmless events. */
  lemma {:induction false} Filling(c: Config, kind: Kind, n: nat, kinds: set<Kind>)
    returns (states: seq<Pipe>, actions: seq<Action>, events: seq<Event>)
    requires !Harmless({kind}) && n <= Places(kind)
    ensures IsRun(c, states, actions) && OnlyRace(states, actions, kinds)
    ensures states[|actions|] == Queued(kind, events) && |events| == n && (n > 0 ==> events[0] == Quiet(kind))
    decreases n
  {
    if n == 0 {
      states, actions, events := [START], [], [];
    } else {
      states, actions, events := Filling(c, kind, n - 1, kinds);
      states, actions := Raced(c, states, actions, Action.Notify(Quiet(kind)), kinds);
      events := events + [Quiet(kind)];
    }
  }

  function TakeOf(kind: Kind): Action { if kind == Failing then TakeQueue else TakeUrgent }

  /** The full queue drops an alerting event, and the worker takes a harmless one. */
  lemma DropSteps(kind: Kind, events: seq<Event>)
    requires !Harmless({kind}) && |events| == Places(kind) && events[0] == Quiet(kind)
    ensures var p := Notified(Queued(kind, events), Loud(kind));
      && Enabled(p, TakeOf(kind)) && Raceable(Step(p, TakeOf(kind)), kind)
  {
    var p := Notified(Queued(kind, events), Loud(kind));
    assert p.tallied == p.raising == [Loud(kind)];
  }

  /** One harmless event in the batch, one alerting drop without its flag. */
  ghost predicate Raceable(p: Pipe, kind: Kind) {
    && p.worker == Collecting && !p.alertDropped && !p.batch.alert
    && p.given == [Quiet(kind)] && p.tallied == p.raising == [Loud(kind)]
  }

  lemma OneAlert(e: Event)
    ensures SomeAlerting([e]) == Alerting(e)
  {
    OneMoreAlert([], e);
  }

  /** An alerting event finds its queue full and is counted; before its flag is stored,
      the worker counts it in a message of harmless events. */
  lemma RaceIsQuiet(c: Config, kind: Kind, kinds: set<Kind>) returns (states: seq<Pipe>, actions: seq<Action>)
    requires kind in kinds && !Harmless({kind})
    ensures IsRun(c, states, actions) && OnlyRace(states, actions, kinds) && !Urgent(states[|actions|])
  {
    states, actions := Raceables(c, kind, kinds);
    states, actions := Swapped(c, states, actions, kinds);
    OneAlert(Loud(kind));
    OneAlert(Quiet(kind));
  }

  lemma Raceables(c: Config, kind: Kind, kinds: set<Kind>) returns (states: seq<Pipe>, actions: seq<Action>)
    requires !Harmless({kind})
    ensures IsRun(c, states, actions) && OnlyRace(states, actions, kinds) && Raceable(states[|actions|], kind)
  {
    var events;
    states, actions, events := Filling(c, kind, Places(kind), kinds);
    DropSteps(kind, events);
    states, actions := Raced(c, states, actions, Action.Notify(Loud(kind)), kinds);
    states, actions := Raced(c, states, actions, TakeOf(kind), kinds);
  }

  lemma Swapped(c: Config, states: seq<Pipe>, actions: seq<Action>, kinds: set<Kind>)
    returns (states': seq<Pipe>, actions': seq<Action>)
    requires IsRun(c, states, actions) && OnlyRace(states, actions, kinds)
    requires var q := states[|actions|];
      q.worker == Collecting && !q.alertDropped && !q.batch.alert && forall e | e in q.raising :: e.kind in kinds
    ensures IsRun(c, states', actions') && OnlyRace(states', actions', kinds)
    ensures var q, end := states[|actions|], states'[|actions'|];
      end.worker.Composing? && end.given == q.given && end.counted == q.tallied && !end.batch.alert
  {
    states', actions' := Raced(c, states, actions, WindowEnds, kinds);
    states', actions' := Raced(c, states', actions', SwapDrops, kinds);
    states', actions' := Raced(c, states', actions', SwapAlert, kinds);
  }

  /** In every run whose races are of these kinds, messages are as urgent as what they count. */
  ghost predicate AlwaysUrgent(c: Config, kinds: set<Kind>) {
    forall states: seq<Pipe>, actions: seq<Action>, i: nat {:trigger IsRun(c, states, actions), states[i]} ::
      IsRun(c, states, actions) && OnlyRace(states, actions, kinds) && i < |states| ==> Urgent(states[i])
  }

  /** The comment at send says that an event only counted still decides how urgent the
      message is. It is true of all runs exactly when no dropped event that needs
      attention gets between the two swaps. */
  lemma UrgencyHoldsExactly(c: Config, kinds: set<Kind>)
    ensures AlwaysUrgent(c, kinds) <==> Harmless(kinds)
  {
    if Harmless(kinds) {
      forall states: seq<Pipe>, actions: seq<Action>, i: nat
        | IsRun(c, states, actions) && OnlyRace(states, actions, kinds) && i < |states|
        ensures Urgent(states[i])
      {
        HarmlessIsUrgent(c, states, actions, kinds, i);
      }
    } else {
      var kind := if Failing in kinds then Failing else if NotSaved in kinds then NotSaved else DBUnavailable;
      var states, actions := RaceIsQuiet(c, kind, kinds);
      assert !Urgent(states[|actions|]);
    }
  }

  // ---------------------------------------------------------------- in place

  /** What is left of two queues after `order` was taken from their fronts. */
  ghost predicate TakenFrom(order: seq<Event>, queue: seq<Event>, urgent: seq<Event>, queue0: seq<Event>,
                            urgent0: seq<Event>)
  {
    Kept(order, true) + urgent == urgent0 && Kept(order, false) + queue == queue0
  }

  lemma TakenOneMore(order: seq<Event>, e: Event, queue: seq<Event>, urgent: seq<Event>, queue0: seq<Event>,
                     urgent0: seq<Event>)
    requires if Global(e) then TakenFrom(order, queue, [e] + urgent, queue0, urgent0)
             else TakenFrom(order, [e] + queue, urgent, queue0, urgent0)
    ensures TakenFrom(order + [e], queue, urgent, queue0, urgent0)
  {
    KeptOneMore(order, e, true);
    KeptOneMore(order, e, false);
    if Global(e) {
      Regroup(Kept(order, true), e, urgent);
      NothingMore(Kept(order, false));
    } else {
      Regroup(Kept(order, false), e, queue);
      NothingMore(Kept(order, true));
    }
  }

  lemma Regroup(a: seq<Event>, e: Event, rest: seq<Event>)
    ensures (a + [e]) + rest == a + ([e] + rest)
  {
  }

  lemma GivenOneMore(a: seq<Event>, b: seq<Event>, e: Event)
    ensures a + (b + [e]) == (a + b) + [e]
  {
  }

  function TakenEvent(p: Pipe, a: Action): Event
    requires Enabled(p, a) && (a.TakeUrgent? || a.TakeQueue?)
  {
    if a.TakeUrgent? then p.urgent[0] else p.queue[0]
  }

  ghost predicate TakenSince(p: Pipe, order: seq<Event>, queue0: seq<Event>, urgent0: seq<Event>, given0: seq<Event>) {
    TakenFrom(order, p.queue, p.urgent, queue0, urgent0) && p.given == given0 + order
  }

  /** A run goes on by one event taken while flushing. */
  lemma Taken(c: Config, states: seq<Pipe>, actions: seq<Action>, a: Action,
              order: seq<Event>, queue0: seq<Event>, urgent0: seq<Event>, given0: seq<Event>)
    returns (states': seq<Pipe>, actions': seq<Action>, order': seq<Event>)
    requires IsRun(c, states, actions) && (a.TakeUrgent? || a.TakeQueue?)
    requires states[|actions|].worker.Flushing? && Enabled(states[|actions|], a)
    requires TakenSince(states[|actions|], order, queue0, urgent0, given0)
    requires Global(TakenEvent(states[|actions|], a)) == a.TakeUrgent?
    ensures IsRun(c, states', actions') && actions' == actions + [a]
    ensures states'[|actions'|] == Step(states[|actions|], a) && states'[|actions'|].worker.Flushing?
    ensures TakenSince(states'[|actions'|], order', queue0, urgent0, given0)
  {
    var p := states[|actions|];
    var e, q := TakenEvent(p, a), Step(p, a);
    states', actions' := Extended(c, states, actions, a);
    order' := order + [e];
    if a.TakeUrgent? { assert p.urgent == [e] + q.urgent; } else { assert p.queue == [e] + q.queue; }
    TakenOneMore(order, e, q.queue, q.urgent, queue0, urgent0);
    GivenOneMore(given0, order, e);
  }

  lemma NothingMore(a: seq<Event>)
    ensures a + [] == a
  {
  }

  predicate AllAre(events: seq<Event>, global: bool) { forall e :: e in events ==> Global(e) == global }

  /** The queues, the drop counters and the flag, as Notify, the worker and send change them. */
  class Channels {
    var queue: seq<Event>
    var urgent: seq<Event>
    var dropped: nat
    var unlogged: nat
    var alertDropped: bool

    constructor ()
      ensures Shows(START)
    {
      queue, urgent, dropped, unlogged, alertDropped := [], [], 0, 0, false;
    }

    ghost predicate Shows(p: Pipe)
      reads this
    {
      && queue == p.queue && urgent == p.urgent
      && dropped == p.dropped && unlogged == p.unlogged && alertDropped == p.alertDropped
    }

    /** Notify. Alone, both of its steps; others may run between them. */
    method Notify(e: Event, ghost p: Pipe)
      requires Shows(p)
      modifies this
      ensures var q := Notified(p, e); Shows(if q.raising == p.raising then q else Raised(q, |p.raising|))
    {
      var lost := Offer(e, p);
      if lost { Raise(e, Notified(p, e), |p.raising|); }
    }

    /** Queues an event, or counts it; a dropped one still has its flag to raise. */
    method Offer(e: Event, ghost p: Pipe) returns (lost: bool)
      requires Shows(p)
      modifies this
      ensures Shows(Notified(p, e))
      ensures if lost then Notified(p, e).raising == p.raising + [e] else Notified(p, e).raising == p.raising
    {
      if Global(e) {
        if |urgent| < MAX_GLOBAL { urgent := urgent + [e]; return false; }
      } else if |queue| < QUEUE_SIZE {
        queue := queue + [e];
        return false;
      }
      dropped, unlogged := dropped + 1, unlogged + 1;
      return true;
    }

    /** What Notify does last with a dropped event. */
    method Raise(e: Event, ghost p: Pipe, ghost k: nat)
      requires Shows(p) && k < |p.raising| && p.raising[k] == e
      modifies this`alertDropped
      ensures Shows(Raised(p, k))
    {
      if Alerting(e) { alertDropped := true; }
    }

    /** The worker takes one event from either queue, whichever is ready, into its batch. */
    method Take(b: Batch, ghost p: Pipe) returns (ghost a: Action)
      requires Shows(p) && b.State() == p.batch && Routed(p) && Receiving(p.worker) && (p.queue != [] || p.urgent != [])
      modifies this`queue, this`urgent, b
      ensures (a.TakeUrgent? || a.TakeQueue?) && Enabled(p, a) && Shows(Step(p, a)) && b.State() == Step(p, a).batch
      ensures Global(TakenEvent(p, a)) == a.TakeUrgent?
    {
      var fromUrgent: bool := *;
      var e;
      if urgent != [] && (fromUrgent || queue == []) {
        e, urgent, a := urgent[0], urgent[1..], TakeUrgent;
      } else {
        e, queue, a := queue[0], queue[1..], TakeQueue;
      }
      b.Add(e);
    }

    /** The worker's flush, after any run that asked it to stop: everything queued goes into
        the batch, each queue in its order. */
    method Drain(b: Batch, ghost c: Config, ghost states: seq<Pipe>, ghost actions: seq<Action>)
      returns (ghost states': seq<Pipe>, ghost actions': seq<Action>, ghost order: seq<Event>)
      requires IsRun(c, states, actions) && states[|actions|].worker.Flushing?
      requires Shows(states[|actions|]) && b.State() == states[|actions|].batch
      modifies this`queue, this`urgent, b
      ensures IsRun(c, states', actions') && actions <= actions'
      ensures Shows(states'[|actions'|]) && b.State() == states'[|actions'|].batch
      ensures queue == [] && urgent == [] && Enabled(states'[|actions'|], Drained)
      ensures Kept(order, true) == old(urgent) && Kept(order, false) == old(queue)
      ensures states'[|actions'|].given == states[|actions|].given + order
    {
      states', actions', order := states, actions, [];
      ghost var queue0, urgent0, given0 := queue, urgent, states[|actions|].given;
      NothingMore(given0);
      while urgent != [] || queue != []
        invariant IsRun(c, states', actions') && actions <= actions'
        invariant states'[|actions'|].worker.Flushing? && Shows(states'[|actions'|])
        invariant b.State() == states'[|actions'|].batch
        invariant TakenSince(states'[|actions'|], order, queue0, urgent0, given0)
        decreases |urgent| + |queue|
      {
        EventsAreRouted(c, states', actions', |actions'|);
        ghost var a := Take(b, states'[|actions'|]);
        states', actions', order := Taken(c, states', actions', a, order, queue0, urgent0, given0);
      }
      NothingMore(Kept(order, true));
      NothingMore(Kept(order, false));
    }

    /** The two swaps of send, each atomic on its own. */
    method SwapDropped(b: Batch, ghost p: Pipe)
      requires Shows(p) && b.State() == p.batch && p.worker.Swapping?
      modifies this`unlogged, b`extra
      ensures Shows(Step(p, SwapDrops)) && b.State() == Step(p, SwapDrops).batch
    {
      var lost := unlogged;
      unlogged := 0;
      if lost > 0 { b.extra := b.extra + lost; }
    }

    method SwapFlag(b: Batch, ghost p: Pipe)
      requires Shows(p) && b.State() == p.batch && p.worker.Asking?
      modifies this`alertDropped, b`alert
      ensures Shows(Step(p, SwapAlert)) && b.State() == Step(p, SwapAlert).batch
    {
      var raised := alertDropped;
      alertDropped := false;
      b.alert := raised || b.alert;
    }

    /** What send does then: nothing for an empty batch, and otherwise one message. */
    method Composed(c: Config, b: Batch, ghost p: Pipe) returns (sent: Option<Message>)
      requires Shows(p) && b.State() == p.batch && p.worker.Composing?
      ensures Enabled(p, SendOf(sent)) && (sent.Some? ==> IsSent(c, p.batch, sent.value))
      ensures Shows(Step(p, SendOf(sent)))
    {
      if b.events == [] && b.extra == 0 { return None; }
      var m := Compose(c, b.events, b.extra);
      return Some(m.(alert := m.alert || b.alert));
    }

    /** send, with nothing in between: three more steps of the run. */
    method Send(c: Config, b: Batch, ghost states: seq<Pipe>, ghost actions: seq<Action>)
      returns (sent: Option<Message>, ghost states': seq<Pipe>, ghost actions': seq<Action>)
      requires IsRun(c, states, actions) && states[|actions|].worker.Swapping?
      requires Shows(states[|actions|]) && b.State() == states[|actions|].batch
      modifies this`unlogged, this`alertDropped, b`extra, b`alert
      ensures IsRun(c, states', actions') && actions' == actions + [SwapDrops] + [SwapAlert] + [SendOf(sent)]
      ensures Shows(states'[|actions'|]) && unlogged == 0 && !alertDropped
      ensures states'[|actions'|].worker == if states[|actions|].worker.last then Stopped else Waiting
      ensures states'[|actions'|].messages == states[|actions|].messages + if sent.Some? then [sent.value] else []
      ensures states'[|actions'|].queue == queue == old(queue) && states'[|actions'|].urgent == urgent == old(urgent)
    {
      SwapDropped(b, states[|actions|]);
      states', actions' := Extended(c, states, actions, SwapDrops);
      SwapFlag(b, states'[|actions'|]);
      states', actions' := Extended(c, states', actions', SwapAlert);
      sent := Composed(c, b, states'[|actions'|]);
      states', actions' := Extended(c, states', actions', SendOf(sent));
    }

    /** flush: what is queued when the server stops goes out in one last message, and nothing
        stays behind. */
    method Flush(c: Config, b: Batch, ghost states: seq<Pipe>, ghost actions: seq<Action>)
      returns (sent: Option<Message>, ghost states': seq<Pipe>, ghost actions': seq<Action>)
      requires IsRun(c, states, actions) && states[|actions|].worker.Flushing?
      requires Shows(states[|actions|]) && b.State() == states[|actions|].batch
      modifies this, b
      ensures IsRun(c, states', actions') && Shows(states'[|actions'|]) && states'[|actions'|].worker == Stopped
      ensures queue == [] && urgent == [] && unlogged == 0
      ensures states'[|actions'|].notified == Total(states'[|actions'|].messages)
    {
      ghost var order;
      states', actions', order := Drain(b, c, states, actions);
      states', actions' := Extended(c, states', actions', Drained);
      sent, states', actions' := Send(c, b, states', actions');
      EventsAreConserved(c, states', actions', |actions'|);
    }
  }
}
