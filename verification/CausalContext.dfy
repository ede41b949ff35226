/**
 The row loop of the dataset builder. Rows arrive ordered by capture and end time; windows per grouping
 key are thrown away at every block change and shed old rows as time moves on. The proof is that each
 emitted case nevertheless sees exactly the earlier rows that its definition asks for.
 */
module CausalContext {
  import opened Wrappers
  import opened Flows
  import opened Relabel

  datatype Grouping = BySource | ByPair | ByNetwork

  /** A pair of addresses is unordered: the source sorts it into a tuple. */
  datatype GroupKey = Source(address: string) | Pair(ends: set<string>) | Network

  datatype Split = Train | Validation | Calibration | KnownTest | ExternalTest | UnseenTest

  datatype BlockKey = BlockKey(capture: string, block: int)

  /** The fields that are hashed to recognise a repeated source row. */
  datatype Fingerprint = Fingerprint(
    source: string, capture: string, start: real, end: real, src: string, dst: string, proto: string,
    sent: int, received: int, packetsOut: int, packetsIn: int)

  datatype Settings = Settings(
    source: string, contextSeconds: real, blockSeconds: int, contextEvents: nat, grouping: Grouping,
    heldOut: string, assign: map<BlockKey, Split>)
  {
    /** What the command line enforces. */
    predicate Valid() {
      0.0 < contextSeconds < blockSeconds as real
    }
  }

  datatype Case<S> = Case(
    number: int, group: BlockKey, time: real, split: Split, attack: bool, family: string,
    fingerprint: Fingerprint, state: S, count: nat, earliest: Option<real>, latest: Option<real>)

  // ---------------------------------------------------------------- one row

  function BlockOf(cfg: Settings, row: Row): BlockKey
    requires cfg.Valid()
  {
    BlockKey(row.capture, (row.end / cfg.blockSeconds as real).Floor)
  }

  function KeyOf(cfg: Settings, row: Row): GroupKey {
    match cfg.grouping
    case BySource => Source(row.src)
    case ByPair => Pair({row.src, row.dst})
    case ByNetwork => Network
  }

  function PrintOf(cfg: Settings, row: Row): Fingerprint {
    Fingerprint(cfg.source, row.capture, row.start, row.end, row.src, row.dst, row.proto, row.sent, row.received,
                row.packetsOut, row.packetsIn)
  }

  /** Rows in the first contextSeconds of a block only warm the context up. */
  predicate InPrefix(cfg: Settings, row: Row)
    requires cfg.Valid()
  {
    row.end - (BlockOf(cfg, row).block * cfg.blockSeconds) as real < cfg.contextSeconds
  }

  /** The split a row is emitted to, if any. */
  function SplitOf(cfg: Settings, row: Row): Option<Split>
    requires cfg.Valid() && BlockOf(cfg, row) in cfg.assign
  {
    var split := cfg.assign[BlockOf(cfg, row)];
    if InPrefix(cfg, row) || (split == UnseenTest && row.attack && row.family != cfg.heldOut) then None
    else Some(split)
  }

  /** How a target row and its history are shown to a model. */
  type Describer<S> = (Row, seq<Row>) -> S

  function CaseFor<S>(
    cfg: Settings, describe: Describer<S>, row: Row, group: BlockKey, split: Split, history: seq<Row>): Case<S>
  {
    Case(row.number, group, row.end, split, row.attack, row.family, PrintOf(cfg, row), describe(row, history),
         |history|,
         if history == [] then None else Some(history[0].end),
         if history == [] then None else Some(history[|history| - 1].end))
  }

  function CaseIfAny<S>(
    cfg: Settings, describe: Describer<S>, row: Row, group: BlockKey, split: Option<Split>, history: seq<Row>)
    : Option<Case<S>>
  {
    if split.None? then None else Some(CaseFor(cfg, describe, row, group, split.value, history))
  }

  // ---------------------------------------------------------------- the loop as a function

  /** Everything the loop carries from row to row. */
  datatype Live = Live(windows: map<GroupKey, seq<Row>>, last: Option<BlockKey>, known: set<Fingerprint>)

  function At(windows: map<GroupKey, seq<Row>>, key: GroupKey): seq<Row> {
    if key in windows then windows[key] else []
  }

  /** The number of rows at the front that are too old, counted on from the first k. */
  function Stale(rows: seq<Row>, since: real, k: nat): (m: nat)
    requires k <= |rows|
    ensures k <= m <= |rows|
    decreases |rows| - k
  {
    if k < |rows| && rows[k].end < since then Stale(rows, since, k + 1) else k
  }

  /** Sheds rows from the left while they are too old. */
  function Shed(rows: seq<Row>, since: real): seq<Row> {
    rows[Stale(rows, since, 0)..]
  }

  /** A change of block throws the windows away. */
  function Entered(live: Live, group: BlockKey): Live {
    if live.last == Some(group) then live else Live(map[], Some(group), live.known)
  }

  /** What is left of the window of a key at time `now`. */
  function Past(cfg: Settings, live: Live, key: GroupKey, now: real): seq<Row> {
    Shed(At(live.windows, key), now - cfg.contextSeconds)
  }

  function Recorded(cfg: Settings, live: Live, key: GroupKey, row: Row): Live {
    Live(live.windows[key := Past(cfg, live, key, row.end) + [row]], live.last, live.known + {PrintOf(cfg, row)})
  }

  function After(cfg: Settings, live: Live, row: Row): Live
    requires cfg.Valid()
  {
    var entered := Entered(live, BlockOf(cfg, row));
    if PrintOf(cfg, row) in entered.known then entered else Recorded(cfg, entered, KeyOf(cfg, row), row)
  }

  function Emitted<S>(cfg: Settings, describe: Describer<S>, live: Live, row: Row): Option<Case<S>>
    requires cfg.Valid() && BlockOf(cfg, row) in cfg.assign
  {
    var group := BlockOf(cfg, row);
    if PrintOf(cfg, row) in live.known then None
    else CaseIfAny(cfg, describe, row, group, SplitOf(cfg, row),
                   Past(cfg, Entered(live, group), KeyOf(cfg, row), row.end))
  }

  ghost predicate Assigned(cfg: Settings, rows: seq<Row>)
    requires cfg.Valid()
  {
    forall i | 0 <= i < |rows| :: BlockOf(cfg, rows[i]) in cfg.assign
  }

  function Run(cfg: Settings, rows: seq<Row>, known: set<Fingerprint>): Live
    requires cfg.Valid()
  {
    if rows == [] then Live(map[], None, known)
    else After(cfg, Run(cfg, rows[..|rows| - 1], known), rows[|rows| - 1])
  }

  function AsSeq<T>(o: Option<T>): seq<T> {
    if o.Some? then [o.value] else []
  }

  function Cases<S>(cfg: Settings, describe: Describer<S>, rows: seq<Row>, known: set<Fingerprint>): seq<Case<S>>
    requires cfg.Valid() && Assigned(cfg, rows)
  {
    if rows == [] then []
    else
      var init := rows[..|rows| - 1];
      Cases(cfg, describe, init, known) + AsSeq(Emitted(cfg, describe, Run(cfg, init, known), rows[|rows| - 1]))
  }

  lemma RunSnoc(cfg: Settings, rows: seq<Row>, known: set<Fingerprint>, i: nat)
    requires cfg.Valid() && i < |rows|
    ensures Run(cfg, rows[..i + 1], known) == After(cfg, Run(cfg, rows[..i], known), rows[i])
  {
    assert rows[..i + 1][..i] == rows[..i] && rows[..i + 1][i] == rows[i];
  }

  lemma CasesStep<S>(cfg: Settings, describe: Describer<S>, rows: seq<Row>, known: set<Fingerprint>, i: nat)
    requires cfg.Valid() && Assigned(cfg, rows) && i < |rows|
    ensures Cases(cfg, describe, rows[..i + 1], known)
            == Cases(cfg, describe, rows[..i], known)
               + AsSeq(Emitted(cfg, describe, Run(cfg, rows[..i], known), rows[i]))
  {
    assert rows[..i + 1][..i] == rows[..i] && rows[..i + 1][i] == rows[i];
  }

  // ---------------------------------------------------------------- the loop itself

  /** The loop's variables; the window of each key is shown by its rows. */
  class Builder<S> {
    const cfg: Settings
    const describe: Describer<S>
    var windows: map<GroupKey, seq<Row>>
    var lastBlock: Option<BlockKey>
    var known: set<Fingerprint>

    ghost function View(): Live
      reads this
    {
      Live(windows, lastBlock, known)
    }

    constructor (cfg: Settings, describe: Describer<S>, known: set<Fingerprint>)
      ensures this.cfg == cfg && this.describe == describe && View() == Live(map[], None, known)
    {
      this.cfg, this.describe := cfg, describe;
      windows, lastBlock, this.known := map[], None, known;
    }

    method Enter(group: BlockKey)
      modifies this`windows, this`lastBlock
      ensures View() == Entered(old(View()), group)
    {
      if lastBlock != Some(group) {
        windows, lastBlock := map[], Some(group);
      }
    }

    method Record(key: GroupKey, row: Row, group: BlockKey, split: Option<Split>) returns (emitted: Option<Case<S>>)
      modifies this`windows, this`known
      ensures View() == Recorded(cfg, old(View()), key, row)
      ensures emitted == CaseIfAny(cfg, describe, row, group, split, Past(cfg, old(View()), key, row.end))
    {
      emitted := None;
      known := known + {PrintOf(cfg, row)};
      var window := if key in windows then windows[key] else [];
      var history := Expire(window, row.end - cfg.contextSeconds);
      if split.Some? {
        emitted := Some(CaseFor(cfg, describe, row, group, split.value, history));
      }
      windows := windows[key := history + [row]];
    }

    method Take(row: Row) returns (emitted: Option<Case<S>>)
      requires cfg.Valid() && BlockOf(cfg, row) in cfg.assign
      modifies this
      ensures View() == After(cfg, old(View()), row)
      ensures emitted == Emitted(cfg, describe, old(View()), row)
    {
      emitted := None;
      var group, split, fingerprint := BlockOf(cfg, row), SplitOf(cfg, row), PrintOf(cfg, row);
      Enter(group);
      if fingerprint !in known {
        emitted := Record(KeyOf(cfg, row), row, group, split);
      }
    }
  }

  method Expire(rows: seq<Row>, since: real) returns (history: seq<Row>)
    ensures history == Shed(rows, since)
  {
    history := rows;
    ghost var k := 0;
    while history != [] && history[0].end < since
      invariant k <= |rows| && history == rows[k..] && Stale(rows, since, 0) == Stale(rows, since, k)
    {
      history := history[1..];
      k := k + 1;
    }
  }

  method Build<S>(cfg: Settings, describe: Describer<S>, rows: seq<Row>, known: set<Fingerprint>)
    returns (cases: seq<Case<S>>, seen: set<Fingerprint>)
    requires cfg.Valid() && Assigned(cfg, rows)
    ensures cases == Cases(cfg, describe, rows, known) && seen == Run(cfg, rows, known).known
    ensures Ordered(rows) ==> cases == CasesUpTo(cfg, describe, rows, known, |rows|)
  {
    var builder := new Builder(cfg, describe, known);
    cases := [];
    var i := 0;
    while i < |rows|
      invariant i <= |rows| && fresh(builder) && builder.cfg == cfg && builder.describe == describe
      invariant builder.View() == Run(cfg, rows[..i], known) && cases == Cases(cfg, describe, rows[..i], known)
    {
      var emitted := builder.Take(rows[i]);
      cases := cases + AsSeq(emitted);
      RunSnoc(cfg, rows, known, i);
      CasesStep(cfg, describe, rows, known, i);
      i := i + 1;
    }
    assert rows[..i] == rows;
    if Ordered(rows) {
      CasesAreAsDefined(cfg, describe, rows, known, |rows|);
    }
    seen := builder.known;
  }

  /** The cases with the state that the models read. */
  method BuildCases(cfg: Settings, compact: real -> real, rows: seq<Row>, known: set<Fingerprint>)
    returns (cases: seq<Case<State>>, seen: set<Fingerprint>)
    requires cfg.Valid() && Assigned(cfg, rows)
    ensures cases == Cases(cfg, (row, history) => StateOf(compact, row, history, cfg.contextEvents), rows, known)
    ensures seen == Run(cfg, rows, known).known
  {
    cases, seen := Build(cfg, (row, history) => StateOf(compact, row, history, cfg.contextEvents), rows, known);
  }

  // ---------------------------------------------------------------- the definition of context

  /** No earlier row, of this source or already known, has the same fingerprint. */
  ghost predicate Fresh(cfg: Settings, rows: seq<Row>, known: set<Fingerprint>, i: nat)
    requires i < |rows|
  {
    PrintOf(cfg, rows[i]) !in known && forall j | 0 <= j < i :: PrintOf(cfg, rows[j]) != PrintOf(cfg, rows[i])
  }

  /** Which earlier rows are asked for: those of a capture and key, in a block or in any, not before `since`. */
  datatype Wanted = Wanted(capture: string, block: Option<int>, key: GroupKey, since: real)

  ghost predicate Matches(cfg: Settings, want: Wanted, row: Row)
    requires cfg.Valid()
  {
    row.capture == want.capture && KeyOf(cfg, row) == want.key && row.end >= want.since &&
    (want.block.Some? ==> BlockOf(cfg, row).block == want.block.value)
  }

  /** The fresh rows among the first n that match, in order. */
  ghost function Gather(cfg: Settings, rows: seq<Row>, known: set<Fingerprint>, n: nat, want: Wanted): seq<Row>
    requires cfg.Valid() && n <= |rows|
  {
    if n == 0 then []
    else
      Gather(cfg, rows, known, n - 1, want)
      + if Fresh(cfg, rows, known, n - 1) && Matches(cfg, want, rows[n - 1]) then [rows[n - 1]] else []
  }

  /** The context of row n: earlier fresh rows of its capture and key, at most contextSeconds old. */
  ghost function ContextWanted(cfg: Settings, row: Row): Wanted {
    Wanted(row.capture, None, KeyOf(cfg, row), row.end - cfg.contextSeconds)
  }

  ghost function ContextOf(cfg: Settings, rows: seq<Row>, known: set<Fingerprint>, n: nat): seq<Row>
    requires cfg.Valid() && n < |rows|
  {
    Gather(cfg, rows, known, n, ContextWanted(cfg, rows[n]))
  }

  ghost function CaseAt<S>(
    cfg: Settings, describe: Describer<S>, rows: seq<Row>, known: set<Fingerprint>, n: nat): Option<Case<S>>
    requires cfg.Valid() && Assigned(cfg, rows) && n < |rows|
  {
    if !Fresh(cfg, rows, known, n) then None
    else CaseIfAny(cfg, describe, rows[n], BlockOf(cfg, rows[n]), SplitOf(cfg, rows[n]), ContextOf(cfg, rows, known, n))
  }

  /** The cases that the first n rows give, by definition. */
  ghost function CasesUpTo<S>(
    cfg: Settings, describe: Describer<S>, rows: seq<Row>, known: set<Fingerprint>, n: nat): seq<Case<S>>
    requires cfg.Valid() && Assigned(cfg, rows) && n <= |rows|
  {
    if n == 0 then []
    else CasesUpTo(cfg, describe, rows, known, n - 1) + AsSeq(CaseAt(cfg, describe, rows, known, n - 1))
  }

  // ---------------------------------------------------------------- order

  /** What ordering by capture and end time gives: captures in one piece each, end times not falling in one. */
  ghost predicate Ordered(rows: seq<Row>) {
    forall i, j | 0 <= i < j < |rows| && rows[i].capture == rows[j].capture ::
      rows[i].end <= rows[j].end && rows[j - 1].capture == rows[j].capture
  }

  lemma BlockBounds(cfg: Settings, row: Row)
    requires cfg.Valid()
    ensures var b := BlockOf(cfg, row).block;
            (b * cfg.blockSeconds) as real <= row.end < ((b + 1) * cfg.blockSeconds) as real
  {
    var b := BlockOf(cfg, row).block;
    FloorBounds(row.end, cfg.blockSeconds as real, b);
    RealProduct(b, cfg.blockSeconds);
    assert (b + 1) * cfg.blockSeconds == b * cfg.blockSeconds + cfg.blockSeconds;
  }

  lemma FloorBounds(x: real, d: real, b: int)
    requires d > 0.0 && b == (x / d).Floor
    ensures b as real * d <= x < b as real * d + d
  {
    ScaledLess(b as real, x / d, d, x);
    ScaledMore(b as real, x / d, d, x);
  }

  lemma ScaledLess(r: real, q: real, d: real, x: real)
    requires d > 0.0 && r <= q && x == q * d
    ensures r * d <= x
  {
    assert (q - r) * d >= 0.0;
  }

  lemma ScaledMore(r: real, q: real, d: real, x: real)
    requires d > 0.0 && q < r + 1.0 && x == q * d
    ensures x < r * d + d
  {
    Positive(r + 1.0 - q, d);
    assert (r + 1.0 - q) * d == r * d + d - q * d;
  }

  lemma Positive(a: real, d: real)
    requires d > 0.0 && a > 0.0
    ensures a * d > 0.0
  {
  }

  lemma RealProduct(a: int, d: int)
    ensures a as real * d as real == (a * d) as real
  {
  }

  lemma NextBlock(a: int, b: int, d: int)
    requires d > 0 && a < b
    ensures (a + 1) * d <= b * d
  {
  }

  /** Later rows are in the same block or in a later one. */
  lemma BlocksGrow(cfg: Settings, row: Row, later: Row)
    requires cfg.Valid() && row.end <= later.end
    ensures BlockOf(cfg, row).block <= BlockOf(cfg, later).block
  {
    BlockBounds(cfg, row);
    BlockBounds(cfg, later);
    var a, b := BlockOf(cfg, row).block, BlockOf(cfg, later).block;
    if b < a {
      NextBlock(b, a, cfg.blockSeconds);
    }
  }

  /** Past the prefix of its block, a row's whole context lies in the block. */
  lemma ContextStaysInBlock(cfg: Settings, row: Row, earlier: Row)
    requires cfg.Valid() && !InPrefix(cfg, row)
    requires earlier.capture == row.capture && row.end - cfg.contextSeconds <= earlier.end <= row.end
    ensures BlockOf(cfg, earlier) == BlockOf(cfg, row)
  {
    BlockBounds(cfg, row);
    BlockBounds(cfg, earlier);
    BlocksGrow(cfg, earlier, row);
    var a, b := BlockOf(cfg, earlier).block, BlockOf(cfg, row).block;
    if a < b {
      NextBlock(a, b, cfg.blockSeconds);
    }
  }

  // ---------------------------------------------------------------- windows hold what will be asked for

  /** The rows of a window from `since` on. */
  ghost function Recent(rows: seq<Row>, since: real): seq<Row> {
    if rows == [] then []
    else Recent(rows[..|rows| - 1], since) + if rows[|rows| - 1].end >= since then [rows[|rows| - 1]] else []
  }

  ghost predicate Rising(rows: seq<Row>) {
    forall i, j | 0 <= i < j < |rows| :: rows[i].end <= rows[j].end
  }

  lemma {:induction false} RecentConcat(a: seq<Row>, b: seq<Row>, since: real)
    ensures Recent(a + b, since) == Recent(a, since) + Recent(b, since)
  {
    if b == [] {
      assert a + b == a;
    } else {
      assert (a + b)[..|a + b| - 1] == a + b[..|b| - 1];
      RecentConcat(a, b[..|b| - 1], since);
    }
  }

  lemma {:induction false} AllRecent(rows: seq<Row>, since: real)
    requires forall i | 0 <= i < |rows| :: rows[i].end >= since
    ensures Recent(rows, since) == rows
  {
    if rows != [] {
      AllRecent(rows[..|rows| - 1], since);
    }
  }

  lemma {:induction false} NoneRecent(rows: seq<Row>, since: real)
    requires forall i | 0 <= i < |rows| :: rows[i].end < since
    ensures Recent(rows, since) == []
  {
    if rows != [] {
      NoneRecent(rows[..|rows| - 1], since);
    }
  }

  lemma {:induction false} StaleRows(rows: seq<Row>, since: real, k: nat)
    requires k <= |rows| && forall i | 0 <= i < k :: rows[i].end < since
    ensures forall i | 0 <= i < Stale(rows, since, k) :: rows[i].end < since
    ensures Stale(rows, since, k) < |rows| ==> rows[Stale(rows, since, k)].end >= since
    decreases |rows| - k
  {
    if k < |rows| && rows[k].end < since {
      StaleRows(rows, since, k + 1);
    }
  }

  /** Shedding from the front loses nothing for later times. */
  lemma ShedKeeps(rows: seq<Row>, since: real, later: real)
    requires later >= since
    ensures Recent(Shed(rows, since), later) == Recent(rows, later)
  {
    var m := Stale(rows, since, 0);
    StaleRows(rows, since, 0);
    assert rows == rows[..m] + rows[m..];
    RecentConcat(rows[..m], rows[m..], later);
    NoneRecent(rows[..m], later);
  }

  /** What stays is recent, if rows rise. */
  lemma ShedIsRecent(rows: seq<Row>, since: real)
    requires Rising(rows)
    ensures Shed(rows, since) == Recent(rows, since) && Rising(Shed(rows, since))
  {
    var m := Stale(rows, since, 0);
    StaleRows(rows, since, 0);
    ShedKeeps(rows, since, since);
    var rest := rows[m..];
    forall i | 0 <= i < |rest| ensures rest[i].end >= since {
      assert rest[i] == rows[m + i] && rows[m].end <= rows[m + i].end;
    }
    AllRecent(rest, since);
  }

  ghost function InBlock(group: BlockKey, key: GroupKey, since: real): Wanted {
    Wanted(group.capture, Some(group.block), key, since)
  }

  ghost predicate HoldsSince(
    cfg: Settings, rows: seq<Row>, known: set<Fingerprint>, n: nat, group: BlockKey, key: GroupKey, window: seq<Row>,
    t: real)
    requires cfg.Valid() && n <= |rows|
  {
    forall since | since >= t :: Recent(window, since) == Gather(cfg, rows, known, n, InBlock(group, key, since))
  }

  /** In order, and nothing later than the row. */
  ghost predicate UpTo(window: seq<Row>, row: Row) {
    Rising(window) && forall i | 0 <= i < |window| :: window[i].end <= row.end
  }

  /**
   A window, at the time of a row: in order, nothing later than the row, and from any time on that can still be
   asked for it holds exactly the fresh rows so far of the row's block and the key.
   */
  ghost predicate Holds(
    cfg: Settings, rows: seq<Row>, known: set<Fingerprint>, n: nat, row: Row, key: GroupKey, window: seq<Row>)
    requires cfg.Valid() && n <= |rows|
  {
    UpTo(window, row) &&
    HoldsSince(cfg, rows, known, n, BlockOf(cfg, row), key, window, row.end - cfg.contextSeconds)
  }

  /** The loop invariant after n rows. */
  ghost predicate Inv(cfg: Settings, rows: seq<Row>, known: set<Fingerprint>, n: nat, live: Live)
    requires cfg.Valid() && n <= |rows|
  {
    (forall f :: f in live.known <==> f in known || exists j | 0 <= j < n :: PrintOf(cfg, rows[j]) == f) &&
    (n == 0 ==> live.last == None) &&
    (n > 0 ==>
       live.last == Some(BlockOf(cfg, rows[n - 1])) &&
       forall key :: Holds(cfg, rows, known, n, rows[n - 1], key, At(live.windows, key)))
  }

  lemma {:induction false} GatherNone(cfg: Settings, rows: seq<Row>, known: set<Fingerprint>, n: nat, want: Wanted)
    requires cfg.Valid() && n <= |rows| && forall j | 0 <= j < n :: !Matches(cfg, want, rows[j])
    ensures Gather(cfg, rows, known, n, want) == []
  {
    if n > 0 {
      GatherNone(cfg, rows, known, n - 1, want);
    }
  }

  lemma {:induction false} GatherAgree(
    cfg: Settings, rows: seq<Row>, known: set<Fingerprint>, n: nat, want: Wanted, want': Wanted)
    requires cfg.Valid() && n <= |rows|
    requires forall j | 0 <= j < n :: Matches(cfg, want, rows[j]) == Matches(cfg, want', rows[j])
    ensures Gather(cfg, rows, known, n, want) == Gather(cfg, rows, known, n, want')
  {
    if n > 0 {
      GatherAgree(cfg, rows, known, n - 1, want, want');
    }
  }

  /** The first row of a block: none before it is in the block. */
  lemma BlockIsNew(cfg: Settings, rows: seq<Row>, n: nat, j: nat)
    requires cfg.Valid() && Ordered(rows) && j < n < |rows|
    requires BlockOf(cfg, rows[n - 1]) != BlockOf(cfg, rows[n])
    ensures BlockOf(cfg, rows[j]) != BlockOf(cfg, rows[n])
  {
    if BlockOf(cfg, rows[j]) == BlockOf(cfg, rows[n]) && j < n - 1 {
      assert rows[n - 1].capture == rows[n].capture;
      BlocksGrow(cfg, rows[j], rows[n - 1]);
      BlocksGrow(cfg, rows[n - 1], rows[n]);
    }
  }

  /** Entering a row's block makes every window hold what can be asked for from that row on. */
  lemma EnteredHolds(
    cfg: Settings, rows: seq<Row>, known: set<Fingerprint>, n: nat, live: Live, key: GroupKey)
    requires cfg.Valid() && Ordered(rows) && n < |rows| && Inv(cfg, rows, known, n, live)
    ensures Holds(cfg, rows, known, n, rows[n], key, At(Entered(live, BlockOf(cfg, rows[n])).windows, key))
  {
    if live.last == Some(BlockOf(cfg, rows[n])) {
      assert Holds(cfg, rows, known, n, rows[n - 1], key, At(live.windows, key));
      assert rows[n - 1].end <= rows[n].end;
    } else {
      forall since ensures Gather(cfg, rows, known, n, InBlock(BlockOf(cfg, rows[n]), key, since)) == [] {
        forall j | 0 <= j < n ensures !Matches(cfg, InBlock(BlockOf(cfg, rows[n]), key, since), rows[j]) {
          BlockIsNew(cfg, rows, n, j);
        }
        GatherNone(cfg, rows, known, n, InBlock(BlockOf(cfg, rows[n]), key, since));
      }
    }
  }

  /** A row that is skipped, or belongs to another key, leaves a window good. */
  lemma HoldsOn(cfg: Settings, rows: seq<Row>, known: set<Fingerprint>, n: nat, key: GroupKey, window: seq<Row>)
    requires cfg.Valid() && n < |rows| && Holds(cfg, rows, known, n, rows[n], key, window)
    requires !Fresh(cfg, rows, known, n) || key != KeyOf(cfg, rows[n])
    ensures Holds(cfg, rows, known, n + 1, rows[n], key, window)
  {
  }

  /** The window of a fresh row's own key. */
  lemma HoldsAppended(
    cfg: Settings, rows: seq<Row>, known: set<Fingerprint>, n: nat, key: GroupKey, window: seq<Row>, next: seq<Row>)
    requires cfg.Valid() && n < |rows| && Fresh(cfg, rows, known, n) && key == KeyOf(cfg, rows[n])
    requires Holds(cfg, rows, known, n, rows[n], key, window)
    requires next == Shed(window, rows[n].end - cfg.contextSeconds) + [rows[n]]
    ensures Holds(cfg, rows, known, n + 1, rows[n], key, next)
  {
    var t := rows[n].end - cfg.contextSeconds;
    RisingAppended(window, t, rows[n]);
    AppendedSince(cfg, rows, known, n, window, t, BlockOf(cfg, rows[n]), key);
  }

  lemma AppendedSince(
    cfg: Settings, rows: seq<Row>, known: set<Fingerprint>, n: nat, window: seq<Row>, t: real, group: BlockKey,
    key: GroupKey)
    requires cfg.Valid() && n < |rows| && Fresh(cfg, rows, known, n)
    requires key == KeyOf(cfg, rows[n]) && group == BlockOf(cfg, rows[n])
    requires HoldsSince(cfg, rows, known, n, group, key, window, t)
    ensures HoldsSince(cfg, rows, known, n + 1, group, key, Shed(window, t) + [rows[n]], t)
  {
    forall since | since >= t
      ensures Recent(Shed(window, t) + [rows[n]], since)
           == Gather(cfg, rows, known, n + 1, InBlock(group, key, since))
    {
      ShedKeeps(window, t, since);
      AppendedRecent(cfg, rows, known, n, Shed(window, t), InBlock(group, key, since));
    }
  }

  lemma RisingAppended(window: seq<Row>, t: real, row: Row)
    requires UpTo(window, row)
    ensures UpTo(Shed(window, t) + [row], row)
  {
    ShedIsRecent(window, t);
  }

  lemma AppendedRecent(
    cfg: Settings, rows: seq<Row>, known: set<Fingerprint>, n: nat, kept: seq<Row>, want: Wanted)
    requires cfg.Valid() && n < |rows| && Fresh(cfg, rows, known, n)
    requires want == InBlock(BlockOf(cfg, rows[n]), KeyOf(cfg, rows[n]), want.since)
    requires Recent(kept, want.since) == Gather(cfg, rows, known, n, want)
    ensures Recent(kept + [rows[n]], want.since) == Gather(cfg, rows, known, n + 1, want)
  {
    RecentOne(kept, rows[n], want.since);
  }

  lemma RecentOne(rows: seq<Row>, row: Row, since: real)
    ensures Recent(rows + [row], since) == Recent(rows, since) + if row.end >= since then [row] else []
  {
    assert (rows + [row])[..|rows|] == rows;
  }

  lemma FreshIffUnknown(cfg: Settings, rows: seq<Row>, known: set<Fingerprint>, n: nat, live: Live)
    requires cfg.Valid() && n < |rows| && Inv(cfg, rows, known, n, live)
    ensures Fresh(cfg, rows, known, n) <==> PrintOf(cfg, rows[n]) !in live.known
  {
  }

  lemma InvStep(cfg: Settings, rows: seq<Row>, known: set<Fingerprint>, n: nat, live: Live)
    requires cfg.Valid() && Ordered(rows) && n < |rows| && Inv(cfg, rows, known, n, live)
    ensures Inv(cfg, rows, known, n + 1, After(cfg, live, rows[n]))
  {
    FreshIffUnknown(cfg, rows, known, n, live);
    forall key
      ensures Holds(cfg, rows, known, n + 1, rows[n], key, At(After(cfg, live, rows[n]).windows, key))
    {
      EnteredHolds(cfg, rows, known, n, live, key);
      WindowStep(cfg, rows, known, n, live, key);
    }
    KnownStep(cfg, rows, known, n, live);
  }

  lemma WindowStep(cfg: Settings, rows: seq<Row>, known: set<Fingerprint>, n: nat, live: Live, key: GroupKey)
    requires cfg.Valid() && n < |rows| && (Fresh(cfg, rows, known, n) <==> PrintOf(cfg, rows[n]) !in live.known)
    requires Holds(cfg, rows, known, n, rows[n], key, At(Entered(live, BlockOf(cfg, rows[n])).windows, key))
    ensures Holds(cfg, rows, known, n + 1, rows[n], key, At(After(cfg, live, rows[n]).windows, key))
  {
    AfterAt(cfg, live, rows[n], key);
    HoldsNext(cfg, rows, known, n, key, At(Entered(live, BlockOf(cfg, rows[n])).windows, key),
              At(After(cfg, live, rows[n]).windows, key));
  }

  lemma HoldsNext(
    cfg: Settings, rows: seq<Row>, known: set<Fingerprint>, n: nat, key: GroupKey, window: seq<Row>, next: seq<Row>)
    requires cfg.Valid() && n < |rows| && Holds(cfg, rows, known, n, rows[n], key, window)
    requires next == if Fresh(cfg, rows, known, n) && key == KeyOf(cfg, rows[n])
                     then Shed(window, rows[n].end - cfg.contextSeconds) + [rows[n]] else window
    ensures Holds(cfg, rows, known, n + 1, rows[n], key, next)
  {
    if Fresh(cfg, rows, known, n) && key == KeyOf(cfg, rows[n]) {
      HoldsAppended(cfg, rows, known, n, key, window, next);
    } else {
      HoldsOn(cfg, rows, known, n, key, window);
    }
  }

  lemma AfterAt(cfg: Settings, live: Live, row: Row, key: GroupKey)
    requires cfg.Valid()
    ensures var window := At(Entered(live, BlockOf(cfg, row)).windows, key);
            At(After(cfg, live, row).windows, key)
            == if PrintOf(cfg, row) !in live.known && key == KeyOf(cfg, row)
               then Shed(window, row.end - cfg.contextSeconds) + [row] else window
  {
  }

  lemma KnownStep(cfg: Settings, rows: seq<Row>, known: set<Fingerprint>, n: nat, live: Live)
    requires cfg.Valid() && n < |rows| && Inv(cfg, rows, known, n, live)
    ensures forall f :: f in After(cfg, live, rows[n]).known <==>
              f in known || exists j | 0 <= j < n + 1 :: PrintOf(cfg, rows[j]) == f
  {
  }

  /** The window of an emitted row is its context. */
  lemma PastIsContext(cfg: Settings, rows: seq<Row>, known: set<Fingerprint>, n: nat, live: Live)
    requires cfg.Valid() && Ordered(rows) && n < |rows| && Inv(cfg, rows, known, n, live)
    requires !InPrefix(cfg, rows[n])
    ensures Past(cfg, Entered(live, BlockOf(cfg, rows[n])), KeyOf(cfg, rows[n]), rows[n].end)
            == ContextOf(cfg, rows, known, n)
  {
    var row, key := rows[n], KeyOf(cfg, rows[n]);
    var t := row.end - cfg.contextSeconds;
    var window := At(Entered(live, BlockOf(cfg, row)).windows, key);
    EnteredHolds(cfg, rows, known, n, live, key);
    ShedIsRecent(window, t);
    ContextInBlock(cfg, rows, known, n);
  }

  /** Asking within the block or in the whole capture is the same, past the prefix. */
  lemma ContextInBlock(cfg: Settings, rows: seq<Row>, known: set<Fingerprint>, n: nat)
    requires cfg.Valid() && Ordered(rows) && n < |rows| && !InPrefix(cfg, rows[n])
    ensures Gather(cfg, rows, known, n,
                   InBlock(BlockOf(cfg, rows[n]), KeyOf(cfg, rows[n]), rows[n].end - cfg.contextSeconds))
         == ContextOf(cfg, rows, known, n)
  {
    var row, key := rows[n], KeyOf(cfg, rows[n]);
    var want := InBlock(BlockOf(cfg, row), key, row.end - cfg.contextSeconds);
    forall j | 0 <= j < n ensures Matches(cfg, want, rows[j]) == Matches(cfg, ContextWanted(cfg, row), rows[j]) {
      if Matches(cfg, ContextWanted(cfg, row), rows[j]) {
        ContextStaysInBlock(cfg, row, rows[j]);
      }
    }
    GatherAgree(cfg, rows, known, n, want, ContextWanted(cfg, row));
  }

  lemma {:induction false} RunKeepsInv(cfg: Settings, rows: seq<Row>, known: set<Fingerprint>, n: nat)
    requires cfg.Valid() && Ordered(rows) && n <= |rows|
    ensures Inv(cfg, rows, known, n, Run(cfg, rows[..n], known))
  {
    if n > 0 {
      RunKeepsInv(cfg, rows, known, n - 1);
      RunSnoc(cfg, rows, known, n - 1);
      InvStep(cfg, rows, known, n - 1, Run(cfg, rows[..n - 1], known));
    }
  }

  lemma EmittedIsDefined<S>(
    cfg: Settings, describe: Describer<S>, rows: seq<Row>, known: set<Fingerprint>, n: nat, live: Live)
    requires cfg.Valid() && Ordered(rows) && Assigned(cfg, rows) && n < |rows| && Inv(cfg, rows, known, n, live)
    ensures Emitted(cfg, describe, live, rows[n]) == CaseAt(cfg, describe, rows, known, n)
  {
    FreshIffUnknown(cfg, rows, known, n, live);
    if !InPrefix(cfg, rows[n]) {
      PastIsContext(cfg, rows, known, n, live);
    }
  }

  /**
   Over any ordered rows the loop emits exactly the cases of the definition: for every fresh row past the prefix
   of its block, with all earlier fresh rows of its capture and key at most contextSeconds old.
   */
  lemma {:induction false} CasesAreAsDefined<S>(
    cfg: Settings, describe: Describer<S>, rows: seq<Row>, known: set<Fingerprint>, n: nat)
    requires cfg.Valid() && Ordered(rows) && Assigned(cfg, rows) && n <= |rows|
    ensures Cases(cfg, describe, rows[..n], known) == CasesUpTo(cfg, describe, rows, known, n)
  {
    if n > 0 {
      CasesAreAsDefined(cfg, describe, rows, known, n - 1);
      NextCase(cfg, describe, rows, known, n - 1);
    }
  }

  lemma NextCase<S>(cfg: Settings, describe: Describer<S>, rows: seq<Row>, known: set<Fingerprint>, n: nat)
    requires cfg.Valid() && Ordered(rows) && Assigned(cfg, rows) && n < |rows|
    ensures Cases(cfg, describe, rows[..n + 1], known)
         == Cases(cfg, describe, rows[..n], known) + AsSeq(CaseAt(cfg, describe, rows, known, n))
  {
    CasesStep(cfg, describe, rows, known, n);
    RunKeepsInv(cfg, rows, known, n);
    EmittedIsDefined(cfg, describe, rows, known, n, Run(cfg, rows[..n], known));
  }

  // ---------------------------------------------------------------- no leaks

  /** Row j is shown in the case of row n: as its target or in its context. */
  ghost predicate Uses(cfg: Settings, rows: seq<Row>, n: nat, j: nat)
    requires cfg.Valid() && j <= n < |rows|
  {
    j == n || Matches(cfg, ContextWanted(cfg, rows[n]), rows[j])
  }

  /** Cases of different splits of a source share no row at all. */
  lemma SplitsShareNoRows(cfg: Settings, rows: seq<Row>, m: nat, n: nat, j: nat)
    requires cfg.Valid() && Ordered(rows) && Assigned(cfg, rows) && j <= m < |rows| && j <= n < |rows|
    requires SplitOf(cfg, rows[m]).Some? && SplitOf(cfg, rows[n]).Some?
    requires Uses(cfg, rows, m, j) && Uses(cfg, rows, n, j)
    ensures SplitOf(cfg, rows[m]) == SplitOf(cfg, rows[n])
  {
    UsedRowInBlock(cfg, rows, m, j);
    UsedRowInBlock(cfg, rows, n, j);
  }

  lemma UsedRowInBlock(cfg: Settings, rows: seq<Row>, n: nat, j: nat)
    requires cfg.Valid() && Ordered(rows) && j <= n < |rows| && Uses(cfg, rows, n, j) && !InPrefix(cfg, rows[n])
    ensures BlockOf(cfg, rows[j]) == BlockOf(cfg, rows[n])
  {
    if j < n {
      ContextStaysInBlock(cfg, rows[n], rows[j]);
    }
  }
}
