/**
 Endpoint relabelling: the state of a flow shows addresses as numbers in order of first appearance,
 which forgets every name and keeps which endpoints are the same.
 */
module Relabel {
  import opened Flows

  /** One flow as the model sees it; every number except the labels goes through the display rounding. */
  datatype Event = Event(
    age: real, src: nat, dst: nat, proto: string, duration: real, sent: real, received: real,
    packetsOut: real, packetsIn: real)

  datatype State = State(current: Event, history: seq<Event>, summary: Summary)

  // ---------------------------------------------------------------- what the labels mean

  /** Addresses in the order in which they are met: source, then destination, row by row. */
  function Names(rows: seq<Row>): (names: seq<string>)
    ensures |names| == 2 * |rows|
  {
    if rows == [] then [] else Names(rows[..|rows| - 1]) + [rows[|rows| - 1].src, rows[|rows| - 1].dst]
  }

  lemma {:induction false} NamesAt(rows: seq<Row>, k: nat)
    requires k < |rows|
    ensures Names(rows)[2 * k] == rows[k].src && Names(rows)[2 * k + 1] == rows[k].dst
  {
    if k < |rows| - 1 {
      NamesAt(rows[..|rows| - 1], k);
    }
  }

  /** How many different names there are. */
  function Distinct(names: seq<string>): nat {
    if names == [] then 0
    else Distinct(names[..|names| - 1]) + if names[|names| - 1] in names[..|names| - 1] then 0 else 1
  }

  /** The first position that holds the same name as position i. */
  function First(names: seq<string>, i: nat): (j: nat)
    requires i < |names|
    ensures j <= i && names[j] == names[i] && names[i] !in names[..j]
  {
    if names[i] !in names[..i] then i
    else
      assert exists j | 0 <= j < |names[..i]| :: names[..i][j] == names[i];
      var earlier := names[..i];
      FirstIn(earlier, names[i])
  }

  function FirstIn(names: seq<string>, name: string): (j: nat)
    requires name in names
    ensures j < |names| && names[j] == name && name !in names[..j]
  {
    if names[0] == name then 0 else 1 + FirstIn(names[1..], name)
  }

  /** The label of a position: how many different names came before the first sight of its name. */
  function LabelAt(names: seq<string>, i: nat): nat
    requires i < |names|
  {
    Distinct(names[..First(names, i)])
  }

  function Latest(rows: seq<Row>, count: nat): seq<Row> {
    if count < |rows| then rows[|rows| - count..] else rows
  }

  function Shown(compact: real -> real, row: Row, now: real, src: nat, dst: nat): Event {
    Event(compact(now - row.end), src, dst, row.proto, compact(row.duration), compact(row.sent as real),
          compact(row.received as real), compact(row.packetsOut as real), compact(row.packetsIn as real))
  }

  function EventAt(compact: real -> real, all: seq<Row>, names: seq<string>, now: real, k: nat): Event
    requires k < |all| && |names| == 2 * |all|
  {
    Shown(compact, all[k], now, LabelAt(names, 2 * k), LabelAt(names, 2 * k + 1))
  }

  function Events(compact: real -> real, all: seq<Row>, names: seq<string>, now: real, m: nat): (events: seq<Event>)
    requires m <= |all| && |names| == 2 * |all|
    ensures |events| == m
  {
    if m == 0 then [] else Events(compact, all, names, now, m - 1) + [EventAt(compact, all, names, now, m - 1)]
  }

  /** The history rows that are shown one by one, and the target. */
  function Displayed(target: Row, history: seq<Row>, contextEvents: nat): (all: seq<Row>)
    ensures all != [] && all[|all| - 1] == target
  {
    Latest(history, contextEvents) + [target]
  }

  function StateWith(compact: real -> real, all: seq<Row>, now: real, summary: Summary): State
    requires all != []
  {
    var n, names := |all| - 1, Names(all);
    State(EventAt(compact, all, names, now, n), Events(compact, all, names, now, n), summary)
  }

  /** The state of a target flow after a history. */
  function StateOf(compact: real -> real, target: Row, history: seq<Row>, contextEvents: nat): State {
    StateWith(compact, Displayed(target, history, contextEvents), target.end, Recount(compact, history))
  }

  // ---------------------------------------------------------------- the label dictionary

  ghost predicate Seen(names: seq<string>, m: nat, name: string)
    requires m <= |names|
  {
    name in names[..m]
  }

  ghost predicate Labelled(endpoint: map<string, nat>, names: seq<string>, i: nat)
    requires i < |names|
  {
    names[i] in endpoint && endpoint[names[i]] == LabelAt(names, i)
  }

  /** The dictionary after the first m names. */
  ghost predicate Numbers(endpoint: map<string, nat>, names: seq<string>, m: nat)
    requires m <= |names|
  {
    |endpoint| == Distinct(names[..m]) && Knows(endpoint, names, m) && LabelledUpTo(endpoint, names, m)
  }

  ghost predicate Knows(endpoint: map<string, nat>, names: seq<string>, m: nat)
    requires m <= |names|
  {
    forall a :: a in endpoint <==> Seen(names, m, a)
  }

  ghost predicate LabelledUpTo(endpoint: map<string, nat>, names: seq<string>, m: nat)
    requires m <= |names|
  {
    forall i: nat | i < m :: Labelled(endpoint, names, i)
  }

  lemma InPrefix(names: seq<string>, j: nat, m: nat)
    requires j < m <= |names|
    ensures names[j] in names[..m]
  {
    assert names[..m][j] == names[j];
  }

  lemma SameFirst(names: seq<string>, i: nat, j: nat)
    requires i < |names| && j < |names| && names[i] == names[j]
    ensures First(names, i) == First(names, j)
  {
    var f, g := First(names, i), First(names, j);
    if f < g {
      InPrefix(names, f, g);
    } else if g < f {
      InPrefix(names, g, f);
    }
  }

  lemma SeenStep(names: seq<string>, m: nat, name: string)
    requires m < |names|
    ensures Seen(names, m + 1, name) <==> Seen(names, m, name) || name == names[m]
  {
    assert names[..m + 1] == names[..m] + [names[m]];
  }

  lemma DistinctStep(names: seq<string>, m: nat)
    requires m < |names|
    ensures Distinct(names[..m + 1]) == Distinct(names[..m]) + if Seen(names, m, names[m]) then 0 else 1
    ensures !Seen(names, m, names[m]) ==> First(names, m) == m
  {
    assert names[..m + 1][..m] == names[..m];
  }

  lemma SeenBefore(names: seq<string>, m: nat) returns (i: nat)
    requires m < |names| && Seen(names, m, names[m])
    ensures i < m && names[i] == names[m] && LabelAt(names, i) == LabelAt(names, m)
  {
    i :| 0 <= i < |names[..m]| && names[..m][i] == names[m];
    SameFirst(names, i, m);
  }

  lemma KnownName(endpoint: map<string, nat>, names: seq<string>, m: nat)
    requires m < |names| && Numbers(endpoint, names, m) && names[m] in endpoint
    ensures Labelled(endpoint, names, m) && Numbers(endpoint, names, m + 1)
  {
    KnownLabel(endpoint, names, m);
    DistinctStep(names, m);
    KnowsNext(endpoint, endpoint, names, m);
  }

  lemma KnownLabel(endpoint: map<string, nat>, names: seq<string>, m: nat)
    requires m < |names| && Knows(endpoint, names, m) && LabelledUpTo(endpoint, names, m) && names[m] in endpoint
    ensures Labelled(endpoint, names, m) && Seen(names, m, names[m])
  {
    var i := SeenBefore(names, m);
    assert Labelled(endpoint, names, i);
  }

  lemma KnowsNext(endpoint: map<string, nat>, extended: map<string, nat>, names: seq<string>, m: nat)
    requires m < |names| && Knows(endpoint, names, m) && extended.Keys == endpoint.Keys + {names[m]}
    ensures Knows(extended, names, m + 1)
  {
    forall a ensures a in extended <==> Seen(names, m + 1, a) {
      SeenStep(names, m, a);
      assert a in extended.Keys <==> a in endpoint.Keys || a == names[m];
    }
  }

  lemma LabelledNext(endpoint: map<string, nat>, names: seq<string>, m: nat, number: nat)
    requires m < |names| && LabelledUpTo(endpoint, names, m) && names[m] !in endpoint && number == LabelAt(names, m)
    ensures LabelledUpTo(endpoint[names[m] := number], names, m + 1)
  {
    var extended, next := endpoint[names[m] := number], m + 1;
    forall i: nat | i < next ensures Labelled(extended, names, i) {
      if i < m {
        assert Labelled(endpoint, names, i);
      }
    }
  }

  lemma NewName(endpoint: map<string, nat>, names: seq<string>, m: nat)
    requires m < |names| && Numbers(endpoint, names, m) && names[m] !in endpoint
    ensures var extended := endpoint[names[m] := |endpoint|];
            Labelled(extended, names, m) && Numbers(extended, names, m + 1)
  {
    var number := |endpoint|;
    DistinctStep(names, m);
    LabelledNext(endpoint, names, m, number);
    KnowsNext(endpoint, endpoint[names[m] := number], names, m);
  }

  method Intern(endpoint: map<string, nat>, ghost names: seq<string>, ghost m: nat, name: string)
    returns (extended: map<string, nat>)
    requires m < |names| && names[m] == name && Numbers(endpoint, names, m)
    ensures Numbers(extended, names, m + 1) && Labelled(extended, names, m)
  {
    extended := endpoint;
    if name !in endpoint {
      NewName(endpoint, names, m);
      extended := extended[name := |endpoint|];
    } else {
      KnownName(endpoint, names, m);
    }
  }

  method EventOf(
    compact: real -> real, endpoint: map<string, nat>, ghost names: seq<string>, ghost m: nat, row: Row, now: real)
    returns (event: Event, extended: map<string, nat>)
    requires m + 1 < |names| && names[m] == row.src && names[m + 1] == row.dst && Numbers(endpoint, names, m)
    ensures event == Shown(compact, row, now, LabelAt(names, m), LabelAt(names, m + 1))
    ensures Numbers(extended, names, m + 2)
  {
    extended := Intern(endpoint, names, m, row.src);
    extended := Intern(extended, names, m + 1, row.dst);
    assert Labelled(extended, names, m);
    event := Shown(compact, row, now, extended[row.src], extended[row.dst]);
  }

  /** The dictionary after the first k rows. */
  ghost predicate NumbersRows(endpoint: map<string, nat>, all: seq<Row>, k: nat) {
    k <= |all| && Numbers(endpoint, Names(all), 2 * k)
  }

  method Show(
    compact: real -> real, endpoint: map<string, nat>, ghost all: seq<Row>, ghost k: nat, row: Row, now: real)
    returns (event: Event, extended: map<string, nat>)
    requires k < |all| && all[k] == row && NumbersRows(endpoint, all, k)
    ensures event == EventAt(compact, all, Names(all), now, k) && NumbersRows(extended, all, k + 1)
  {
    NamesAt(all, k);
    ghost var m := 2 * k;
    event, extended := EventOf(compact, endpoint, Names(all), m, row, now);
    assert m + 2 == 2 * (k + 1);
  }

  method Describe(compact: real -> real, target: Row, chosen: seq<Row>, summary: Summary) returns (state: State)
    ensures state == StateWith(compact, chosen + [target], target.end, summary)
  {
    ghost var all := chosen + [target];
    var endpoint: map<string, nat>, events, k := map[], [], 0;
    assert Names(all)[..0] == [];
    while k < |chosen|
      invariant k <= |chosen| && NumbersRows(endpoint, all, k)
      invariant events == Events(compact, all, Names(all), target.end, k)
    {
      var event;
      event, endpoint := Show(compact, endpoint, all, k, chosen[k], target.end);
      events := events + [event];
      k := k + 1;
    }
    var current;
    current, endpoint := Show(compact, endpoint, all, k, target, target.end);
    state := State(current, events, summary);
  }

  /** Over a running window ... */
  method StateForWindow(target: Row, window: FlowWindow, contextEvents: nat) returns (state: State)
    requires window.Valid()
    ensures state == StateOf(window.compact, target, window.rows, contextEvents)
  {
    var summary := window.Summarize();
    state := Describe(window.compact, target, Latest(window.rows, contextEvents), summary);
  }

  /** ... and over a plain list, which is recounted. */
  method StateForList(compact: real -> real, target: Row, history: seq<Row>, contextEvents: nat)
    returns (state: State)
    ensures state == StateOf(compact, target, history, contextEvents)
  {
    state := Describe(compact, target, Latest(history, contextEvents), Recount(compact, history));
  }

  // ---------------------------------------------------------------- labels are the equality pattern

  /** The two lists repeat their names in the same places. */
  ghost predicate SamePattern(s: seq<string>, t: seq<string>) {
    |s| == |t| && forall i, j | 0 <= i < |s| && 0 <= j < |s| :: s[i] == s[j] <==> t[i] == t[j]
  }

  lemma {:induction false} DistinctGrows(names: seq<string>, i: nat, j: nat)
    requires i < j <= |names| && names[i] !in names[..i]
    ensures Distinct(names[..i]) < Distinct(names[..j])
    decreases j
  {
    assert names[..j][..j - 1] == names[..j - 1];
    if i < j - 1 {
      DistinctGrows(names, i, j - 1);
    }
  }

  /** Labels are equal exactly where the names are, and count up in order of first appearance. */
  lemma LabelsSeparate(names: seq<string>, i: nat, j: nat)
    requires i < |names| && j < |names|
    ensures LabelAt(names, i) == LabelAt(names, j) <==> names[i] == names[j]
    ensures LabelAt(names, i) < LabelAt(names, j) <==> First(names, i) < First(names, j)
  {
    var f, g := First(names, i), First(names, j);
    if names[i] == names[j] {
      SameFirst(names, i, j);
    } else if f < g {
      DistinctGrows(names, f, g);
    } else {
      DistinctGrows(names, g, f);
    }
  }

  /** The labels in use are 0, 1, ... without a gap. */
  lemma {:induction false} EveryLabelIsUsed(names: seq<string>, number: nat) returns (i: nat)
    requires number < Distinct(names)
    ensures i < |names| && LabelAt(names, i) == number && First(names, i) == i
  {
    var n := |names| - 1;
    var init := names[..n];
    if number < Distinct(init) {
      i := EveryLabelIsUsed(init, number);
      assert names[..i] == init[..i];
    } else {
      i := n;
    }
  }

  lemma {:induction false} LabelBound(names: seq<string>, i: nat)
    requires i < |names|
    ensures LabelAt(names, i) < Distinct(names)
  {
    assert names[..|names|] == names;
    DistinctGrows(names, First(names, i), |names|);
  }

  lemma {:induction false} SameDistinct(s: seq<string>, t: seq<string>)
    requires SamePattern(s, t)
    ensures Distinct(s) == Distinct(t)
  {
    if s != [] {
      var n := |s| - 1;
      SameDistinct(s[..n], t[..n]);
      SameNovelty(s, t, n);
      SameNovelty(t, s, n);
    }
  }

  lemma SameNovelty(s: seq<string>, t: seq<string>, i: nat)
    requires SamePattern(s, t) && i < |s|
    ensures s[i] in s[..i] ==> t[i] in t[..i]
  {
    if s[i] in s[..i] {
      var j :| 0 <= j < |s[..i]| && s[..i][j] == s[i];
      assert t[..i][j] == t[i];
    }
  }

  lemma SameFirstPlace(s: seq<string>, t: seq<string>, i: nat)
    requires SamePattern(s, t) && i < |s|
    ensures First(s, i) == First(t, i)
  {
    var f, g := First(s, i), First(t, i);
    if f < g {
      InPrefix(t, f, g);
    } else if g < f {
      InPrefix(s, g, f);
    }
  }

  function Labels(names: seq<string>): seq<nat> {
    seq(|names|, i requires 0 <= i < |names| => LabelAt(names, i))
  }

  /** Labels tell exactly which places hold the same name, and nothing else. */
  lemma LabelsAreTheEqualityPattern(s: seq<string>, t: seq<string>)
    ensures Labels(s) == Labels(t) <==> SamePattern(s, t)
  {
    if SamePattern(s, t) {
      forall i | 0 <= i < |s| ensures LabelAt(s, i) == LabelAt(t, i) {
        SameFirstPlace(s, t, i);
        SameDistinct(s[..First(s, i)], t[..First(t, i)]);
      }
    } else if Labels(s) == Labels(t) {
      assert |s| == |Labels(s)| == |Labels(t)| == |t|;
      forall i, j | 0 <= i < |s| && 0 <= j < |s| ensures s[i] == s[j] <==> t[i] == t[j] {
        assert LabelAt(s, i) == Labels(s)[i] == Labels(t)[i] == LabelAt(t, i);
        assert LabelAt(s, j) == Labels(s)[j] == Labels(t)[j] == LabelAt(t, j);
        LabelsSeparate(s, i, j);
        LabelsSeparate(t, i, j);
      }
    }
  }

  // ---------------------------------------------------------------- renaming

  ghost predicate Injective(f: string -> string) {
    forall a, b :: f(a) == f(b) ==> a == b
  }

  function Renamed(f: string -> string, row: Row): Row {
    row.(src := f(row.src), dst := f(row.dst))
  }

  function RenamedAll(f: string -> string, rows: seq<Row>): seq<Row> {
    seq(|rows|, i requires 0 <= i < |rows| => Renamed(f, rows[i]))
  }

  lemma {:induction false} RenamedNames(f: string -> string, rows: seq<Row>, i: nat)
    requires i < 2 * |rows|
    ensures Names(RenamedAll(f, rows))[i] == f(Names(rows)[i])
  {
    var n := |rows| - 1;
    assert RenamedAll(f, rows)[..n] == RenamedAll(f, rows[..n]);
    if i < 2 * n {
      RenamedNames(f, rows[..n], i);
    }
  }

  lemma RenamedPattern(f: string -> string, rows: seq<Row>)
    requires Injective(f)
    ensures Labels(Names(RenamedAll(f, rows))) == Labels(Names(rows))
  {
    var s, t := Names(RenamedAll(f, rows)), Names(rows);
    forall i | 0 <= i < |t| ensures s[i] == f(t[i]) {
      RenamedNames(f, rows, i);
    }
    LabelsAreTheEqualityPattern(s, t);
  }

  lemma {:induction false} RenamedSums(f: string -> string, rows: seq<Row>)
    ensures Sums(RenamedAll(f, rows)) == Sums(rows) && ZeroReplies(RenamedAll(f, rows)) == ZeroReplies(rows)
  {
    if rows != [] {
      var n := |rows| - 1;
      RenamedSums(f, rows[..n]);
      assert RenamedAll(f, rows)[..n] == RenamedAll(f, rows[..n]);
    }
  }

  lemma {:induction false} ImageSize(f: string -> string, names: set<string>)
    requires Injective(f)
    ensures |set a | a in names :: f(a)| == |names|
  {
    if names != {} {
      var a :| a in names;
      var rest := names - {a};
      ImageSize(f, rest);
      assert (set x | x in names :: f(x)) == (set x | x in rest :: f(x)) + {f(a)};
    }
  }

  lemma RenamedPeers(f: string -> string, rows: seq<Row>)
    requires Injective(f)
    ensures |Peers(RenamedAll(f, rows))| == |Peers(rows)|
  {
    var renamed := RenamedAll(f, rows);
    var image := set a | a in Peers(rows) :: f(a);
    forall x ensures x in image <==> x in Peers(renamed) {
      if x in image {
        var a :| a in Peers(rows) && f(a) == x;
        var i :| 0 <= i < |rows| && (rows[i].src == a || rows[i].dst == a);
        assert renamed[i].src == x || renamed[i].dst == x;
      }
      if x in Peers(renamed) {
        var i :| 0 <= i < |renamed| && (renamed[i].src == x || renamed[i].dst == x);
        assert rows[i].src in Peers(rows) && rows[i].dst in Peers(rows);
      }
    }
    assert image == Peers(renamed);
    ImageSize(f, Peers(rows));
  }

  /** Renaming every address, injectively, leaves the state as it is. */
  lemma StateForgetsNames(
    compact: real -> real, target: Row, history: seq<Row>, contextEvents: nat, f: string -> string)
    requires Injective(f)
    ensures StateOf(compact, Renamed(f, target), RenamedAll(f, history), contextEvents)
            == StateOf(compact, target, history, contextEvents)
  {
    var all := Displayed(target, history, contextEvents);
    DisplayedRenamed(target, history, contextEvents, f);
    RenamedPattern(f, all);
    RenamedRecount(compact, f, history);
    SameStates(compact, all, RenamedAll(f, all), target.end, Recount(compact, history));
  }

  lemma DisplayedRenamed(target: Row, history: seq<Row>, contextEvents: nat, f: string -> string)
    ensures Displayed(Renamed(f, target), RenamedAll(f, history), contextEvents)
         == RenamedAll(f, Displayed(target, history, contextEvents))
    ensures var all := Displayed(target, history, contextEvents);
            |RenamedAll(f, all)| == |all| && forall k | 0 <= k < |all| :: DifferInNames(all[k], RenamedAll(f, all)[k])
  {
  }

  lemma RenamedRecount(compact: real -> real, f: string -> string, rows: seq<Row>)
    requires Injective(f)
    ensures Recount(compact, RenamedAll(f, rows)) == Recount(compact, rows)
  {
    RenamedPeers(f, rows);
    RenamedSums(f, rows);
  }

  lemma SameStates(compact: real -> real, all: seq<Row>, all': seq<Row>, now: real, summary: Summary)
    requires 0 < |all| == |all'| && Labels(Names(all)) == Labels(Names(all'))
    requires forall k | 0 <= k < |all| :: DifferInNames(all[k], all'[k])
    ensures StateWith(compact, all, now, summary) == StateWith(compact, all', now, summary)
  {
    var n := |all| - 1;
    SameEvents(compact, all, all', now, n);
    SameEvent(compact, all, all', now, n);
    assert StateWith(compact, all, now, summary)
        == State(EventAt(compact, all, Names(all), now, n), Events(compact, all, Names(all), now, n), summary);
  }

  lemma SameEvent(compact: real -> real, all: seq<Row>, all': seq<Row>, now: real, k: nat)
    requires k < |all| == |all'| && Labels(Names(all)) == Labels(Names(all'))
    requires DifferInNames(all[k], all'[k])
    ensures EventAt(compact, all, Names(all), now, k) == EventAt(compact, all', Names(all'), now, k)
  {
    var i := 2 * k;
    SameLabel(Names(all), Names(all'), i);
    SameLabel(Names(all), Names(all'), i + 1);
    SameShown(compact, all[k], all'[k], now, LabelAt(Names(all), i), LabelAt(Names(all), i + 1));
  }

  lemma SameShown(compact: real -> real, a: Row, b: Row, now: real, src: nat, dst: nat)
    requires DifferInNames(a, b)
    ensures Shown(compact, a, now, src, dst) == Shown(compact, b, now, src, dst)
  {
  }

  ghost predicate DifferInNames(a: Row, b: Row) {
    a == b.(src := a.src, dst := a.dst)
  }

  lemma {:induction false} SameEvents(compact: real -> real, all: seq<Row>, all': seq<Row>, now: real, m: nat)
    requires m <= |all| == |all'| && Labels(Names(all)) == Labels(Names(all'))
    requires forall k | 0 <= k < |all| :: DifferInNames(all[k], all'[k])
    ensures Events(compact, all, Names(all), now, m) == Events(compact, all', Names(all'), now, m)
  {
    if m > 0 {
      SameEvents(compact, all, all', now, m - 1);
      SameEvent(compact, all, all', now, m - 1);
    }
  }

  lemma SameLabel(s: seq<string>, t: seq<string>, i: nat)
    requires Labels(s) == Labels(t) && |s| == |t| && i < |s|
    ensures LabelAt(s, i) == LabelAt(t, i)
  {
    assert Labels(s)[i] == Labels(t)[i];
  }

  /** Two states that show the same labels come from histories that repeat addresses in the same places. */
  lemma EqualStatesShareTheirPattern(
    compact: real -> real, target: Row, history: seq<Row>, target': Row, history': seq<Row>, contextEvents: nat)
    requires StateOf(compact, target, history, contextEvents) == StateOf(compact, target', history', contextEvents)
    ensures SamePattern(Names(Displayed(target, history, contextEvents)),
                        Names(Displayed(target', history', contextEvents)))
  {
    PatternFromStates(compact, Displayed(target, history, contextEvents), Displayed(target', history', contextEvents),
                      target.end, target'.end, Recount(compact, history), Recount(compact, history'));
  }

  lemma PatternFromStates(
    compact: real -> real, all: seq<Row>, all': seq<Row>, now: real, now': real, summary: Summary, summary': Summary)
    requires all != [] && all' != []
    requires StateWith(compact, all, now, summary) == StateWith(compact, all', now', summary')
    ensures SamePattern(Names(all), Names(all'))
  {
    assert |all| == |StateWith(compact, all, now, summary).history| + 1;
    assert |all'| == |StateWith(compact, all', now', summary').history| + 1;
    forall k: nat | k < |all| ensures SamePair(Names(all), Names(all'), k) {
      LabelsFromStates(compact, all, all', now, now', summary, summary', k);
    }
    PatternFromPairs(Names(all), Names(all'), |all|);
  }

  /** Both labels of row k agree. */
  ghost predicate SamePair(s: seq<string>, t: seq<string>, k: nat)
    requires 2 * k + 1 < |s| == |t|
  {
    LabelAt(s, 2 * k) == LabelAt(t, 2 * k) && LabelAt(s, 2 * k + 1) == LabelAt(t, 2 * k + 1)
  }

  lemma PatternFromPairs(s: seq<string>, t: seq<string>, n: nat)
    requires |s| == |t| == 2 * n && forall k: nat | k < n :: SamePair(s, t, k)
    ensures SamePattern(s, t)
  {
    forall i | 0 <= i < 2 * n ensures LabelAt(s, i) == LabelAt(t, i) {
      var k := i / 2;
      assert SamePair(s, t, k);
    }
    assert Labels(s) == Labels(t);
    LabelsAreTheEqualityPattern(s, t);
  }

  lemma LabelsFromEvent(compact: real -> real, all: seq<Row>, all': seq<Row>, now: real, now': real, k: nat)
    requires k < |all| == |all'|
    requires EventAt(compact, all, Names(all), now, k) == EventAt(compact, all', Names(all'), now', k)
    ensures SamePair(Names(all), Names(all'), k)
  {
  }

  lemma {:induction false} LabelsFromEvents(
    compact: real -> real, all: seq<Row>, all': seq<Row>, now: real, now': real, m: nat, k: nat)
    requires k < m <= |all| == |all'|
    requires Events(compact, all, Names(all), now, m) == Events(compact, all', Names(all'), now', m)
    ensures SamePair(Names(all), Names(all'), k)
  {
    var e, e' := Events(compact, all, Names(all), now, m), Events(compact, all', Names(all'), now', m);
    assert e[..m - 1] == e'[..m - 1] && e[m - 1] == e'[m - 1];
    if k < m - 1 {
      LabelsFromEvents(compact, all, all', now, now', m - 1, k);
    } else {
      LabelsFromEvent(compact, all, all', now, now', k);
    }
  }

  lemma LabelsFromStates(
    compact: real -> real, all: seq<Row>, all': seq<Row>, now: real, now': real, summary: Summary, summary': Summary,
    k: nat)
    requires k < |all| == |all'|
    requires StateWith(compact, all, now, summary) == StateWith(compact, all', now', summary')
    ensures SamePair(Names(all), Names(all'), k)
  {
    if k < |all| - 1 {
      LabelsFromEvents(compact, all, all', now, now', |all| - 1, k);
    } else {
      LabelsFromEvent(compact, all, all', now, now', k);
    }
  }
}
