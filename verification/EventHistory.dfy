/** The bounded ESXi event history: a truncating fold that equals the greatest events of the union. */
module EventHistory {
  import opened Wrappers
  import opened Collections

  const LIMIT := 1000

  /** Times and ids stand for the texts they are compared as. */
  datatype Event = Event(time: int, id: int)

  datatype Row = Row(event: Event, eligible: bool)

  /** `boundary` is the baseline; `None` is the empty text, before every time. */
  datatype History = History(initialized: bool, boundary: Option<int>, rows: seq<Row>)

  const NO_HISTORY := History(false, None, [])

  /** A provider read; only a successful one carries events. */
  datatype Observation = Observation(successful: bool, events: seq<Event>)

  predicate WellFormed(o: Observation) {
    !o.successful ==> o.events == []
  }

  predicate Less(a: Event, b: Event) {
    a.time < b.time || (a.time == b.time && a.id < b.id)
  }

  // ------------------------------------------------------------ greatest events

  function Min(a: nat, b: nat): nat {
    if a <= b then a else b
  }

  /** `t` holds the `k` greatest elements of `s`, or all of them. */
  predicate IsTop(k: nat, s: set<Event>, t: set<Event>) {
    t <= s && |t| == Min(k, |s|) && forall x, y :: x in s && x !in t && y in t ==> Less(x, y)
  }

  /** Sizes: truncating first cannot lose a place. */
  lemma TopSizes(k: nat, s: set<Event>, t: set<Event>, b: set<Event>)
    requires t <= s && |t| == Min(k, |s|)
    ensures Min(k, |t + b|) == Min(k, |s + b|)
    ensures |s| > k ==> |t| == k && |t + b| >= k
  {
    SubsetSize(t, t + b);
    SubsetSize(t + b, s + b);
    SubsetSize(t, s);
  }

  /** What was truncated stays below everything kept later. */
  lemma TruncatedStaysBelow(k: nat, s: set<Event>, t: set<Event>, b: set<Event>, u: set<Event>, x: Event, y: Event)
    requires IsTop(k, s, t) && IsTop(k, t + b, u) && x in s && x !in t && x !in b && y in u
    ensures Less(x, y)
  {
    TopSizes(k, s, t, b);
    SubsetSize(t, s);
    if y !in t {
      assert exists z :: z in t && z !in u by {
        if t <= u {
          SubsetSize(t, u);
        }
      }
      var z :| z in t && z !in u;
      assert Less(x, z) && Less(z, y);
    }
  }

  /** Truncating, adding and truncating again is truncating the union. */
  lemma TopOfTop(k: nat, s: set<Event>, t: set<Event>, b: set<Event>, u: set<Event>)
    requires IsTop(k, s, t) && IsTop(k, t + b, u)
    ensures IsTop(k, s + b, u)
  {
    TopSizes(k, s, t, b);
    forall x, y | x in s + b && x !in u && y in u
      ensures Less(x, y)
    {
      if x !in t + b {
        TruncatedStaysBelow(k, s, t, b, u, x, y);
      }
    }
  }

  // --------------------------------------------------------------------- merge

  function EventsOf(rows: seq<Row>): set<Event> {
    set r | r in rows :: r.event
  }

  function Seen(es: seq<Event>): set<Event> {
    set e | e in es
  }

  predicate Sorted(rows: seq<Row>) {
    forall i, j :: 0 <= i < j < |rows| ==> Less(rows[i].event, rows[j].event)
  }

  predicate After(t: int, boundary: Option<int>) {
    boundary.None? || t > boundary.value
  }

  function Latest(es: seq<Event>): Option<int> {
    if es == [] then None
    else
      var rest := Latest(es[..|es| - 1]);
      if rest.None? || es[|es| - 1].time > rest.value then Some(es[|es| - 1].time) else rest
  }

  function Boundary(h: History, o: Observation): Option<int> {
    if !h.initialized && o.successful then Latest(o.events) else h.boundary
  }

  /** What `merge_events` makes of a history and an observation. */
  predicate Merges(h: History, o: Observation, r: History) {
    && r.initialized == (h.initialized || o.successful)
    && r.boundary == Boundary(h, o)
    && Sorted(r.rows)
    && IsTop(LIMIT, EventsOf(h.rows) + Seen(o.events), EventsOf(r.rows))
    && forall row :: row in r.rows ==>
         row in h.rows || (row.event !in EventsOf(h.rows)
           && row.eligible == (h.initialized && After(row.event.time, r.boundary)))
  }

  /** A chain of merges from nothing. */
  predicate Chain(os: seq<Observation>, hs: seq<History>) {
    && |hs| == |os| + 1
    && hs[0] == NO_HISTORY
    && forall i :: 0 <= i < |os| ==> Merges(hs[i], os[i], hs[i + 1])
  }

  function Union(os: seq<Observation>): set<Event> {
    if os == [] then {} else Union(os[..|os| - 1]) + Seen(os[|os| - 1].events)
  }

  lemma ChainPrefix(os: seq<Observation>, hs: seq<History>)
    requires Chain(os, hs) && os != []
    ensures Chain(os[..|os| - 1], hs[..|hs| - 1])
  {
  }

  /** Folding keeps exactly the greatest events of everything ever observed. */
  lemma {:induction false} FoldKeepsGreatest(os: seq<Observation>, hs: seq<History>)
    requires Chain(os, hs)
    ensures IsTop(LIMIT, Union(os), EventsOf(hs[|os|].rows))
  {
    if os != [] {
      var n := |os| - 1;
      ChainPrefix(os, hs);
      FoldKeepsGreatest(os[..n], hs[..|hs| - 1]);
      assert Merges(hs[n], os[n], hs[n + 1]);
      hide Merges, Chain, IsTop;
      TopOfTop(LIMIT, Union(os[..n]), EventsOf(hs[n].rows), Seen(os[n].events), EventsOf(hs[n + 1].rows));
    }
  }

  // ------------------------------------------------------------------ baseline

  /** The first successful observation, if there was one. */
  function First(os: seq<Observation>): Option<Observation> {
    if os == [] then None
    else if First(os[..|os| - 1]).Some? then First(os[..|os| - 1])
    else if os[|os| - 1].successful then Some(os[|os| - 1])
    else None
  }

  /** The baseline is that of the first successful observation, and eligibility is decided by it alone. */
  predicate BaselineHolds(os: seq<Observation>, h: History) {
    && h.initialized == First(os).Some?
    && h.boundary == (if First(os).Some? then Latest(First(os).value.events) else None)
    && (!h.initialized ==> h.rows == [])
    && forall row :: row in h.rows ==> row.eligible == After(row.event.time, h.boundary)
  }

  lemma {:induction false} LatestBounds(es: seq<Event>, e: Event)
    requires e in es
    ensures Latest(es).Some? && e.time <= Latest(es).value
  {
    if e != es[|es| - 1] {
      LatestBounds(es[..|es| - 1], e);
    }
  }

  lemma NothingKept(h: History, o: Observation, r: History)
    requires Merges(h, o, r) && h.rows == [] && o.events == []
    ensures r.rows == []
  {
    assert EventsOf(h.rows) + Seen(o.events) == {};
    RowsHaveEvents(r.rows);
  }

  lemma RowsHaveEvents(rows: seq<Row>)
    ensures EventsOf(rows) == {} ==> rows == []
  {
    if rows != [] {
      assert rows[0].event in EventsOf(rows);
    }
  }

  lemma MergeKeepsBaseline(os: seq<Observation>, o: Observation, h: History, r: History)
    requires BaselineHolds(os, h) && Merges(h, o, r) && WellFormed(o)
    ensures BaselineHolds(os + [o], r)
  {
    hide IsTop, Sorted;
    var all := os + [o];
    assert all[..|all| - 1] == os && all[|all| - 1] == o;
    if !r.initialized {
      NothingKept(h, o, r);
    } else {
      forall row | row in r.rows
        ensures row.eligible == After(row.event.time, r.boundary)
      {
        if !h.initialized {
          FirstRowIsObserved(h, o, r, row);
          LatestBounds(o.events, row.event);
        }
      }
    }
  }

  lemma FirstRowIsObserved(h: History, o: Observation, r: History, row: Row)
    requires Merges(h, o, r) && h.rows == [] && row in r.rows
    ensures row.event in o.events
  {
  }

  lemma {:induction false} ChainKeepsBaseline(os: seq<Observation>, hs: seq<History>)
    requires Chain(os, hs) && forall o :: o in os ==> WellFormed(o)
    ensures BaselineHolds(os, hs[|os|])
  {
    if os != [] {
      var n := |os| - 1;
      ChainPrefix(os, hs);
      ChainKeepsBaseline(os[..n], hs[..|hs| - 1]);
      assert Merges(hs[n], os[n], hs[n + 1]);
      assert os == os[..n] + [os[n]];
      MergeKeepsBaseline(os[..n], os[n], hs[n], hs[n + 1]);
    }
  }

  /** Once set, the baseline never moves. */
  lemma BaselineIsFixed(os: seq<Observation>, hs: seq<History>, i: nat, j: nat)
    requires Chain(os, hs) && i <= j <= |os| && hs[i].initialized
    ensures hs[j].initialized && hs[j].boundary == hs[i].boundary
  {
    if i < j {
      BaselineIsFixed(os, hs, i, j - 1);
      assert Merges(hs[j - 1], os[j - 1], hs[j]);
    }
  }

  /** No event of the first successful observation is ever alert-eligible, even if evicted and seen again. */
  lemma BaselineNeverAlerts(os: seq<Observation>, hs: seq<History>, e: Event, row: Row)
    requires Chain(os, hs) && (forall o :: o in os ==> WellFormed(o))
    requires First(os).Some? && e in First(os).value.events
    requires row in hs[|os|].rows && row.event == e
    ensures !row.eligible
  {
    hide Chain;
    ChainKeepsBaseline(os, hs);
    LatestBounds(First(os).value.events, e);
  }

  lemma {:induction false} LatestIsObserved(es: seq<Event>)
    ensures Latest(es).None? <==> es == []
    ensures es != [] ==> exists e :: e in es && e.time == Latest(es).value
  {
    if es != [] {
      var init, last := es[..|es| - 1], es[|es| - 1];
      LatestIsObserved(init);
      assert last in es && forall e :: e in init ==> e in es;
    }
  }

  /** A kept event may alert exactly when it is later than every event of the first successful observation. */
  lemma AlertsExactlyWhenLater(os: seq<Observation>, hs: seq<History>, row: Row)
    requires Chain(os, hs) && (forall o :: o in os ==> WellFormed(o)) && row in hs[|os|].rows
    ensures First(os).Some?
    ensures row.eligible <==> forall e :: e in First(os).value.events ==> e.time < row.event.time
  {
    hide Chain, Latest;
    ChainKeepsBaseline(os, hs);
    var es := First(os).value.events;
    LatestIsObserved(es);
    forall e | e in es
      ensures e.time <= Latest(es).value
    {
      LatestBounds(es, e);
    }
  }

  // -------------------------------------------------------------- as it runs

  lemma {:induction false} SortedSize(rows: seq<Row>)
    requires Sorted(rows)
    ensures |EventsOf(rows)| == |rows|
  {
    hide EventsOf, Less;
    if rows == [] {
      assert EventsOf(rows) == {} by { NoEvents(); }
    } else {
      var init, last := rows[..|rows| - 1], rows[|rows| - 1];
      SortedSize(init);
      assert rows == init + [last];
      EventsSnoc(init, last);
      LastIsNew(rows);
    }
  }

  lemma NoEvents()
    ensures EventsOf([]) == {}
  {
  }

  /** The last event of a sorted list occurs once. */
  lemma LastIsNew(rows: seq<Row>)
    requires Sorted(rows) && rows != []
    ensures rows[|rows| - 1].event !in EventsOf(rows[..|rows| - 1])
  {
    assert forall i :: 0 <= i < |rows| - 1 ==> Less(rows[i].event, rows[|rows| - 1].event);
  }

  lemma EventsSnoc(rows: seq<Row>, r: Row)
    ensures EventsOf(rows + [r]) == EventsOf(rows) + {r.event}
  {
  }

  /** The last rows of a sorted list are its greatest. */
  lemma TailIsTop(rows: seq<Row>, k: nat)
    requires Sorted(rows)
    ensures var from := |rows| - Min(k, |rows|);
            Sorted(rows[from..]) && IsTop(k, EventsOf(rows), EventsOf(rows[from..]))
  {
    var from := |rows| - Min(k, |rows|);
    var tail := rows[from..];
    SortedSize(rows);
    SortedSize(tail);
    assert forall r :: r in tail ==> r in rows;
    forall x, y | x in EventsOf(rows) && x !in EventsOf(tail) && y in EventsOf(tail)
      ensures Less(x, y)
    {
      HeadIsBelow(rows, from, x, y);
    }
  }

  lemma HeadIsBelow(rows: seq<Row>, from: nat, x: Event, y: Event)
    requires Sorted(rows) && from <= |rows|
    requires x in EventsOf(rows) && x !in EventsOf(rows[from..]) && y in EventsOf(rows[from..])
    ensures Less(x, y)
  {
    hide Less;
    var tail := rows[from..];
    forall k | from <= k < |rows|
      ensures rows[k].event in EventsOf(tail)
    {
      assert tail[k - from] == rows[k];
    }
    var i :| 0 <= i < |rows| && rows[i].event == x;
    var j :| 0 <= j < |tail| && tail[j].event == y;
    assert rows[from + j] == tail[j];
  }

  /** Insertion into a list sorted by time, then id. */
  method Insert(rows: seq<Row>, r: Row) returns (more: seq<Row>)
    requires Sorted(rows) && r.event !in EventsOf(rows)
    ensures Sorted(more) && forall x :: x in more <==> x in rows || x == r
  {
    var i: nat := |rows|;
    while i > 0 && Less(r.event, rows[i - 1].event)
      invariant i <= |rows| && forall j :: i <= j < |rows| ==> Less(r.event, rows[j].event)
    {
      i := i - 1;
    }
    if i > 0 {
      assert rows[i - 1].event in EventsOf(rows);
    }
    more := rows[..i] + [r] + rows[i..];
    assert forall x :: x in rows <==> x in rows[..i] || x in rows[i..];
  }

  /** The id of an event determines its time, because the id is a digest over it. */
  predicate Coherent(es: set<Event>) {
    forall a, b :: a in es && b in es && a.id == b.id ==> a == b
  }

  /** The dictionary of rows by id: the recorded rows, then each unseen event with its eligibility. */
  predicate Filled(h: History, o: Observation, n: nat, rows: map<int, Row>)
    requires n <= |o.events|
  {
    && (forall k :: k in rows ==> rows[k].event.id == k)
    && (forall e :: e in EventsOf(h.rows) + Seen(o.events[..n]) ==> e.id in rows && rows[e.id].event == e)
    && (forall k :: k in rows ==>
          || rows[k] in h.rows
          || (rows[k].event in o.events[..n] && rows[k].event !in EventsOf(h.rows)
              && rows[k].eligible == (h.initialized && After(rows[k].event.time, Boundary(h, o)))))
  }

  /** One more observed event. */
  lemma FillNext(h: History, o: Observation, i: nat, rows: map<int, Row>)
    requires i < |o.events| && Filled(h, o, i, rows) && Coherent(EventsOf(h.rows) + Seen(o.events))
    ensures var e := o.events[i];
      Filled(h, o, i + 1,
             if e.id in rows then rows else rows[e.id := Row(e, h.initialized && After(e.time, Boundary(h, o)))])
  {
    hide After, Boundary;
    var e := o.events[i];
    assert e in Seen(o.events);
    assert forall x :: x in o.events[..i + 1] <==> x in o.events[..i] || x == e;
    if e.id in rows {
      FilledKnown(h, o, i, rows, e.id);
    }
  }

  method Fill(h: History, o: Observation) returns (rows: map<int, Row>)
    requires Coherent(EventsOf(h.rows) + Seen(o.events)) && Sorted(h.rows)
    ensures Filled(h, o, |o.events|, rows)
  {
    rows := map[];
    for i := 0 to |h.rows|
      invariant forall k :: k in rows ==> rows[k].event.id == k && rows[k] in h.rows
      invariant forall j :: 0 <= j < i ==>
                h.rows[j].event.id in rows && rows[h.rows[j].event.id].event == h.rows[j].event
    {
      assert h.rows[i].event in EventsOf(h.rows);
      assert forall j :: 0 <= j < i ==> h.rows[j].event in EventsOf(h.rows);
      rows := rows[h.rows[i].event.id := h.rows[i]];
    }
    assert Filled(h, o, 0, rows);
    for i := 0 to |o.events|
      invariant Filled(h, o, i, rows)
    {
      var e := o.events[i];
      FillNext(h, o, i, rows);
      if e.id !in rows {
        rows := rows[e.id := Row(e, h.initialized && After(e.time, Boundary(h, o)))];
      }
    }
  }

  lemma FilledKnown(h: History, o: Observation, n: nat, rows: map<int, Row>, k: int)
    requires n <= |o.events| && Filled(h, o, n, rows) && k in rows
    ensures rows[k].event in EventsOf(h.rows) + Seen(o.events)
  {
  }

  lemma SomeMember(s: set<int>)
    ensures s == {} || exists k :: k in s
  {
    if forall k :: k !in s {
      assert s == {};
    }
  }

  /** `sorted(rows.values())`. */
  method SortRows(rows: map<int, Row>) returns (all: seq<Row>)
    requires forall k :: k in rows ==> rows[k].event.id == k
    ensures Sorted(all) && forall x :: x in all <==> exists k :: k in rows && rows[k] == x
  {
    all := [];
    var rest := rows.Keys;
    while rest != {}
      invariant rest <= rows.Keys && Sorted(all)
      invariant forall x :: x in all <==> exists k :: k in rows && k !in rest && rows[k] == x
      decreases |rest|
    {
      SomeMember(rest);
      var k :| k in rest;
      assert rows[k].event !in EventsOf(all);
      all := Insert(all, rows[k]);
      rest := rest - {k};
    }
  }

  /** `merge_events`. */
  method MergeEvents(h: History, o: Observation) returns (r: History)
    requires Coherent(EventsOf(h.rows) + Seen(o.events)) && Sorted(h.rows)
    ensures Merges(h, o, r)
  {
    hide IsTop, Sorted, Latest, Coherent, Merges, Filled, EventsOf;
    var rows := Fill(h, o);
    FilledIds(h, o, rows);
    var all := SortRows(rows);
    TailIsTop(all, LIMIT);
    r := History(h.initialized || o.successful, Boundary(h, o), all[|all| - Min(LIMIT, |all|)..]);
    FilledEvents(h, o, rows, all);
    Merged(h, o, rows, all, r);
  }

  lemma FilledIds(h: History, o: Observation, rows: map<int, Row>)
    requires Filled(h, o, |o.events|, rows)
    ensures forall k :: k in rows ==> rows[k].event.id == k
  {
  }

  lemma Merged(h: History, o: Observation, rows: map<int, Row>, all: seq<Row>, r: History)
    requires Filled(h, o, |o.events|, rows) && forall x :: x in all <==> exists k :: k in rows && rows[k] == x
    requires r == History(h.initialized || o.successful, Boundary(h, o), all[|all| - Min(LIMIT, |all|)..])
    requires Sorted(r.rows) && IsTop(LIMIT, EventsOf(h.rows) + Seen(o.events), EventsOf(r.rows))
    ensures Merges(h, o, r)
  {
    hide IsTop, Sorted, Boundary, After;
    assert o.events[..|o.events|] == o.events;
    forall row | row in r.rows
      ensures row in h.rows
              || (row.event !in EventsOf(h.rows)
              && row.eligible == (h.initialized && After(row.event.time, r.boundary)))
    {
      assert row in all;
      var k :| k in rows && rows[k] == row;
    }
  }

  lemma FilledEvents(h: History, o: Observation, rows: map<int, Row>, all: seq<Row>)
    requires Filled(h, o, |o.events|, rows) && forall x :: x in all <==> exists k :: k in rows && rows[k] == x
    ensures EventsOf(all) == EventsOf(h.rows) + Seen(o.events)
  {
    hide After, Boundary;
    assert o.events[..|o.events|] == o.events;
    forall e | e in EventsOf(all)
      ensures e in EventsOf(h.rows) + Seen(o.events)
    {
      var x :| x in all && x.event == e;
      var k :| k in rows && rows[k] == x;
      FilledKnown(h, o, |o.events|, rows, k);
    }
    forall e | e in EventsOf(h.rows) + Seen(o.events)
      ensures e in EventsOf(all)
    {
      assert rows[e.id] in all;
    }
  }
}
