/** The hash chain of one event stream, for any preimage format: what append
    links, what the verifier accepts, and what that says about the rows
    (packages/postgres/src/pg-event-store.ts:177-371, 579-659). */
module EventChain {
  import opened Wrappers
  import opened CanonicalJson
  import opened HashChain

  /** A row of the events table. */
  datatype EventRow = EventRow(
    aggregateVersion: int, eventId: string, eventType: string, version: int, payload: Json,
    correlationId: Option<string>, causationId: Option<string>, eventHash: Option<Digest>)

  /** The stream_versions row of a stream with the stream's event rows in version order. */
  datatype Stream = Stream(current: int, head: Option<Digest>, rows: seq<EventRow>)

  /** How the rows of one stream are hashed: the preimage of a row after a given
      hash, the genesis preimage, the rows the serializer accepts, and when two
      rows have the same covered content. */
  datatype Format = Format(
    h: Hmac, preimage: (Digest, EventRow) -> Bytes, genesis: Bytes,
    ok: EventRow -> bool, same: (EventRow, EventRow) -> bool)

  /** Unique readability and domain separation of a format. */
  ghost predicate Readable(f: Format)
  {
    (forall p: Digest, q: Digest, r, t {:trigger f.preimage(p, r), f.preimage(q, t)} | f.ok(r) && f.ok(t) ::
       f.preimage(p, r) == f.preimage(q, t) <==> p == q && f.same(r, t)) &&
    (forall p: Digest, r {:trigger f.preimage(p, r)} | f.ok(r) :: f.preimage(p, r) != f.genesis)
  }

  function Genesis(f: Format): Digest { f.h(f.genesis) }

  function Link(f: Format, prev: Digest, r: EventRow): Digest { f.h(f.preimage(prev, r)) }

  /** The head of the chain that starts at prev and covers rows. */
  function HeadOf(f: Format, prev: Digest, rows: seq<EventRow>): Digest
  {
    if rows == [] then prev else Link(f, HeadOf(f, prev, rows[..|rows| - 1]), rows[|rows| - 1])
  }

  /** Every row carries the hash that chains it to its predecessor. */
  predicate Linked(f: Format, prev: Digest, rows: seq<EventRow>)
  {
    forall i | 0 <= i < |rows| :: rows[i].eventHash == Some(HeadOf(f, prev, rows[..i + 1]))
  }

  predicate Consecutive(rows: seq<EventRow>, first: int)
  {
    forall i | 0 <= i < |rows| :: rows[i].aggregateVersion == first + i
  }

  predicate AllOk(f: Format, rows: seq<EventRow>) { forall i | 0 <= i < |rows| :: f.ok(rows[i]) }

  // ---------------------------------------------------------------------------
  // append
  // ---------------------------------------------------------------------------

  datatype AppendError = ConcurrencyError | PayloadError

  /** JSON.stringify followed by the jsonb column; None when either refuses. */
  type Jsonb = Json -> Option<Json>

  predicate Stores(jsonb: Jsonb, raw: seq<EventRow>) { forall i | 0 <= i < |raw| :: jsonb(raw[i].payload).Some? }

  /** The row that is inserted for a raw row. */
  function Inserted(jsonb: Jsonb, r: EventRow, hash: Option<Digest>): EventRow
    requires jsonb(r.payload).Some?
  {
    r.(payload := jsonb(r.payload).value, eventHash := hash)
  }

  /** Storing a hashable row keeps its covered content. */
  ghost predicate Keeps(f: Format, jsonb: Jsonb)
  {
    forall r, hash | f.ok(r) && jsonb(r.payload).Some? ::
      f.ok(Inserted(jsonb, r, hash)) && f.same(r, Inserted(jsonb, r, hash))
  }

  function ChainedRows(f: Format, jsonb: Jsonb, prev: Digest, raw: seq<EventRow>): (r: seq<EventRow>)
    requires Stores(jsonb, raw)
    ensures |r| == |raw|
  {
    seq(|raw|, i requires 0 <= i < |raw| => Inserted(jsonb, raw[i], Some(HeadOf(f, prev, raw[..i + 1]))))
  }

  function PlainRows(jsonb: Jsonb, raw: seq<EventRow>): (r: seq<EventRow>)
    requires Stores(jsonb, raw)
    ensures |r| == |raw|
  {
    seq(|raw|, i requires 0 <= i < |raw| => Inserted(jsonb, raw[i], None))
  }

  function RowsOf(s: Option<Stream>): seq<EventRow> { if s.None? then [] else s.value.rows }

  function HeadIn(s: Option<Stream>): Option<Digest> { if s.None? then None else s.value.head }

  /** The hash the next event is chained to. */
  function PrevIn(f: Format, s: Option<Stream>): Digest { if HeadIn(s).Some? then HeadIn(s).value else Genesis(f) }

  /** The version gate: version 0 starts a stream, any other must be the current one. */
  predicate GateOpen(s: Option<Stream>, expected: int)
  {
    if expected == 0 then s.None? else s.Some? && s.value.current == expected
  }

  /** The effect of append on one stream, None being a stream that does not
      exist; an error stands for the rolled-back transaction. The raw rows carry
      the versions expected + 1, expected + 2 and so on. */
  function Appended(f: Format, chained: bool, jsonb: Jsonb, s: Option<Stream>, expected: int, raw: seq<EventRow>): Result<Option<Stream>, AppendError>
  {
    var unhashable := chained && !AllOk(f, raw);
    if raw == [] then Ok(s)
    else if !GateOpen(s, expected) then Err(if expected == 0 && unhashable then PayloadError else ConcurrencyError)
    else if unhashable || !Stores(jsonb, raw) then Err(PayloadError)
    else if chained then
      Ok(Some(Stream(expected + |raw|, Some(HeadOf(f, PrevIn(f, s), raw)), RowsOf(s) + ChainedRows(f, jsonb, PrevIn(f, s), raw))))
    else
      Ok(Some(Stream(expected + |raw|, HeadIn(s), RowsOf(s) + PlainRows(jsonb, raw))))
  }

  // ---------------------------------------------------------------------------
  // verifyStream
  // ---------------------------------------------------------------------------

  datatype Reason = Intact | HeadWithoutEvents | NullHash | VersionGap | HashMismatch | HeadMismatch

  datatype Verification = Verification(ok: bool, eventsChecked: nat, firstBrokenAt: Option<int>, reason: Reason)

  /** rows.findIndex(r => r.event_hash !== null), with the length for -1. */
  function ChainStart(rows: seq<EventRow>): (r: nat)
    ensures r <= |rows|
    ensures forall i | 0 <= i < r :: rows[i].eventHash.None?
    ensures r < |rows| ==> rows[r].eventHash.Some?
  {
    if rows == [] || rows[0].eventHash.Some? then 0 else 1 + ChainStart(rows[1..])
  }

  /** The rows the verifier walks. */
  function Protected(rows: seq<EventRow>): seq<EventRow> { rows[ChainStart(rows)..] }

  datatype Walked = Broken(result: Verification) | Reached(prev: Digest, checked: nat)

  /** The loop over the protected rows, from the left. */
  function Walk(f: Format, rows: seq<EventRow>, prev: Digest, checked: nat, expected: int): Walked
  {
    if rows == [] then Reached(prev, checked)
    else
      var r := rows[0];
      if r.eventHash.None? then Broken(Verification(false, checked, Some(r.aggregateVersion), NullHash))
      else if r.aggregateVersion != expected then Broken(Verification(false, checked, Some(expected), VersionGap))
      else
        var recomputed := Link(f, prev, r);
        if !HashesEqual(Some(recomputed), r.eventHash) then
          Broken(Verification(false, checked, Some(r.aggregateVersion), HashMismatch))
        else Walk(f, rows[1..], recomputed, checked + 1, r.aggregateVersion + 1)
  }

  /** verifyStream as a function of the stored rows and the stored head. */
  function Verified(f: Format, rows: seq<EventRow>, head: Option<Digest>): Verification
  {
    var start := ChainStart(rows);
    if start == |rows| then
      if head.Some? then
        Verification(false, 0, Some(if rows == [] then 0 else rows[|rows| - 1].aggregateVersion), HeadWithoutEvents)
      else Verification(true, 0, None, Intact)
    else
      match Walk(f, rows[start..], Genesis(f), 0, rows[start].aggregateVersion)
      case Broken(r) => r
      case Reached(prev, checked) =>
        if !HashesEqual(Some(prev), head) then
          Verification(false, checked, Some(rows[start].aggregateVersion + checked - 1), HeadMismatch)
        else Verification(true, checked, None, Intact)
  }

  // ---------------------------------------------------------------------------
  // What acceptance means
  // ---------------------------------------------------------------------------

  lemma {:induction false} HeadOfShift(f: Format, prev: Digest, rows: seq<EventRow>)
    requires rows != []
    ensures HeadOf(f, prev, rows) == HeadOf(f, Link(f, prev, rows[0]), rows[1..])
  {
    var n := |rows| - 1;
    if n == 0 {
      assert rows[..0] == [] && rows[1..] == [];
    } else {
      HeadOfShift(f, prev, rows[..n]);
      assert rows[..n][1..] == rows[1..][..n - 1];
    }
  }

  lemma LinkedShift(f: Format, prev: Digest, rows: seq<EventRow>)
    requires rows != []
    ensures Linked(f, prev, rows) <==>
              rows[0].eventHash == Some(Link(f, prev, rows[0])) && Linked(f, Link(f, prev, rows[0]), rows[1..])
  {
    var p, tail := Link(f, prev, rows[0]), rows[1..];
    HeadOfNone(f, p);
    hide HeadOf, Link;
    forall i | 0 <= i < |rows| ensures HeadOf(f, prev, rows[..i + 1]) == HeadOf(f, p, tail[..i]) {
      HeadOfShift(f, prev, rows[..i + 1]);
      assert rows[..i + 1][1..] == tail[..i];
    }
    assert HeadOf(f, prev, rows[..1]) == p by { assert tail[..0] == [] && rows[..0 + 1] == rows[..1]; }
    if rows[0].eventHash == Some(p) && Linked(f, p, tail) {
      forall i | 0 <= i < |rows| ensures rows[i].eventHash == Some(HeadOf(f, prev, rows[..i + 1])) {
        if i > 0 { assert tail[i - 1].eventHash == Some(HeadOf(f, p, tail[..i])); }
      }
    } else if Linked(f, prev, rows) {
      forall i | 0 <= i < |tail| ensures tail[i].eventHash == Some(HeadOf(f, p, tail[..i + 1])) {
        assert rows[i + 1].eventHash == Some(HeadOf(f, prev, rows[..i + 1 + 1]));
      }
    }
  }

  lemma HeadOfNone(f: Format, prev: Digest)
    ensures HeadOf(f, prev, []) == prev
  {
  }

  lemma ConsecutiveShift(rows: seq<EventRow>, first: int)
    requires rows != []
    ensures Consecutive(rows, first) <==> rows[0].aggregateVersion == first && Consecutive(rows[1..], first + 1)
  {
    if rows[0].aggregateVersion == first && Consecutive(rows[1..], first + 1) {
      forall i | 0 <= i < |rows| ensures rows[i].aggregateVersion == first + i {
        if i > 0 { assert rows[1..][i - 1].aggregateVersion == first + 1 + (i - 1); }
      }
    }
  }

  /** The walk gets to the end exactly on consecutive linked rows, and then has
      recomputed the head. */
  lemma {:induction false} WalkMeaning(f: Format, rows: seq<EventRow>, prev: Digest, checked: nat, expected: int)
    ensures Walk(f, rows, prev, checked, expected).Reached? <==> Linked(f, prev, rows) && Consecutive(rows, expected)
    ensures Walk(f, rows, prev, checked, expected).Reached? ==>
              Walk(f, rows, prev, checked, expected) == Reached(HeadOf(f, prev, rows), checked + |rows|)
    ensures Walk(f, rows, prev, checked, expected).Broken? ==> !Walk(f, rows, prev, checked, expected).result.ok
  {
    if rows != [] {
      WalkMeaning(f, rows[1..], Link(f, prev, rows[0]), checked + 1, expected + 1);
      LinkedShift(f, prev, rows);
      HeadOfShift(f, prev, rows);
      ConsecutiveShift(rows, expected);
    }
  }

  /** A stream verifies exactly when nothing is protected and no head is stored,
      or the rows from the first protected one on are consecutive, linked from
      genesis and end in the stored head. */
  lemma VerifiedMeaning(f: Format, rows: seq<EventRow>, head: Option<Digest>)
    ensures Verified(f, rows, head).ok <==>
              if Protected(rows) == [] then head.None?
              else Linked(f, Genesis(f), Protected(rows)) &&
                   Consecutive(Protected(rows), Protected(rows)[0].aggregateVersion) &&
                   head == Some(HeadOf(f, Genesis(f), Protected(rows)))
    ensures Verified(f, rows, head).ok ==> Verified(f, rows, head) == Verification(true, |Protected(rows)|, None, Intact)
  {
    var start := ChainStart(rows);
    if start < |rows| {
      WalkMeaning(f, rows[start..], Genesis(f), 0, rows[start].aggregateVersion);
    }
  }

  /** Row k of rows that should be chained to prev and numbered from first is bad: it has
      no hash, is not of the next version, or is not chained to the row before. */
  predicate BadAt(f: Format, prev: Digest, rows: seq<EventRow>, first: int, k: nat)
  {
    k < |rows| &&
    (rows[k].eventHash.None? || rows[k].aggregateVersion != first + k || rows[k].eventHash != Some(HeadOf(f, prev, rows[..k + 1])))
  }

  lemma {:induction false} WalkStops(f: Format, rows: seq<EventRow>, prev: Digest, checked: nat, first: int, k: nat)
    requires BadAt(f, prev, rows, first, k) && forall i | 0 <= i < k :: !BadAt(f, prev, rows, first, i)
    ensures Walk(f, rows, prev, checked, first) ==
              Broken(if rows[k].eventHash.None? then Verification(false, checked + k, Some(rows[k].aggregateVersion), NullHash)
                     else if rows[k].aggregateVersion != first + k then Verification(false, checked + k, Some(first + k), VersionGap)
                     else Verification(false, checked + k, Some(rows[k].aggregateVersion), HashMismatch))
    decreases k
  {
    var next := Link(f, prev, rows[0]);
    assert rows[..0] == [] && rows[..1] == [rows[0]] && [rows[0]][..0] == [];
    assert HeadOf(f, prev, rows[..0 + 1]) == next;
    hide HeadOf, Link;
    if k > 0 {
      assert !BadAt(f, prev, rows, first, 0);
      var tail, second := rows[1..], first + 1;
      forall i | 0 <= i < k - 1 ensures !BadAt(f, next, tail, second, i) { BadBehind(f, prev, rows, first, i); }
      BadBehind(f, prev, rows, first, k - 1);
      WalkStops(f, tail, next, checked + 1, second, k - 1);
    }
  }

  lemma BadBehind(f: Format, prev: Digest, rows: seq<EventRow>, first: int, i: nat)
    requires rows != []
    ensures BadAt(f, Link(f, prev, rows[0]), rows[1..], first + 1, i) <==> BadAt(f, prev, rows, first, i + 1)
  {
    if i + 1 < |rows| {
      hide HeadOf, Link;
      HeadOfShift(f, prev, rows[..i + 2]);
      assert rows[..i + 2][1..] == rows[1..][..i + 1] && rows[..i + 2][0] == rows[0];
    }
  }

  /** What a rejection says. Without protected rows it is about a head that nothing
      accounts for, at the last version; otherwise about the first bad row, after
      the rows before it, by the first of the three tests it fails; and with no bad
      row about a head that is not the last row's, at the last version. */
  lemma BrokenWhy(f: Format, rows: seq<EventRow>, head: Option<Digest>)
    requires !Verified(f, rows, head).ok
    ensures var ps, r := Protected(rows), Verified(f, rows, head);
            if ps == [] then
              head.Some? && r == Verification(false, 0, Some(if rows == [] then 0 else rows[|rows| - 1].aggregateVersion), HeadWithoutEvents)
            else if forall i | 0 <= i < |ps| :: !BadAt(f, Genesis(f), ps, ps[0].aggregateVersion, i) then
              head != Some(HeadOf(f, Genesis(f), ps)) &&
              r == Verification(false, |ps|, Some(ps[|ps| - 1].aggregateVersion), HeadMismatch)
            else
              r.eventsChecked < |ps| && BadAt(f, Genesis(f), ps, ps[0].aggregateVersion, r.eventsChecked) &&
              (forall i | 0 <= i < r.eventsChecked :: !BadAt(f, Genesis(f), ps, ps[0].aggregateVersion, i)) &&
              var row := ps[r.eventsChecked];
              r.reason == (if row.eventHash.None? then NullHash
                           else if row.aggregateVersion != ps[0].aggregateVersion + r.eventsChecked then VersionGap else HashMismatch) &&
              r.firstBrokenAt == Some(if r.reason == VersionGap then ps[0].aggregateVersion + r.eventsChecked else row.aggregateVersion)
  {
    var ps := Protected(rows);
    if ps != [] {
      var first := ps[0].aggregateVersion;
      if forall i | 0 <= i < |ps| :: !BadAt(f, Genesis(f), ps, first, i) {
        assert Linked(f, Genesis(f), ps) && Consecutive(ps, first) by {
          forall i | 0 <= i < |ps| ensures ps[i].eventHash == Some(HeadOf(f, Genesis(f), ps[..i + 1])) && ps[i].aggregateVersion == first + i {
            assert !BadAt(f, Genesis(f), ps, first, i);
          }
        }
        WalkMeaning(f, ps, Genesis(f), 0, first);
        hide Walk, HeadOf, Linked;
      } else {
        var k := FirstBad(f, Genesis(f), ps, first);
        hide BadAt, HeadOf;
        WalkStops(f, ps, Genesis(f), 0, first, k);
        hide Walk;
      }
    }
  }

  lemma FirstBad(f: Format, prev: Digest, rows: seq<EventRow>, first: int) returns (k: nat)
    requires exists i | 0 <= i < |rows| :: BadAt(f, prev, rows, first, i)
    ensures BadAt(f, prev, rows, first, k) && forall i | 0 <= i < k :: !BadAt(f, prev, rows, first, i)
  {
    hide BadAt;
    k := 0;
    while !BadAt(f, prev, rows, first, k)
      invariant k <= |rows| && forall i | 0 <= i < k :: !BadAt(f, prev, rows, first, i)
      decreases |rows| - k
    {
      k := k + 1;
    }
  }

  // ---------------------------------------------------------------------------
  // Soundness against tampering
  // ---------------------------------------------------------------------------

  /** No two of these byte strings have the same digest. */
  ghost predicate CollisionFree(h: Hmac, preimages: set<Bytes>)
  {
    forall p, q | p in preimages && q in preimages && h(p) == h(q) :: p == q
  }

  /** The preimages hashed while chaining rows from genesis. */
  function Preimages(f: Format, rows: seq<EventRow>): set<Bytes>
  {
    if rows == [] then {f.genesis}
    else Preimages(f, rows[..|rows| - 1]) + {f.preimage(HeadOf(f, Genesis(f), rows[..|rows| - 1]), rows[|rows| - 1])}
  }

  predicate SameContents(f: Format, rows: seq<EventRow>, ts: seq<EventRow>)
  {
    |rows| == |ts| && forall i | 0 <= i < |rows| :: f.same(rows[i], ts[i])
  }

  /** Same covered content and same stored hash, row by row. */
  predicate SameRows(f: Format, rows: seq<EventRow>, ts: seq<EventRow>)
  {
    SameContents(f, rows, ts) && forall i | 0 <= i < |rows| :: rows[i].eventHash == ts[i].eventHash
  }

  lemma {:induction false} GenesisKnown(f: Format, rows: seq<EventRow>)
    ensures f.genesis in Preimages(f, rows)
  {
    if rows != [] { GenesisKnown(f, rows[..|rows| - 1]); }
  }

  /** One head, one chain: two chains from genesis that end in the same hash
      cover the same events. */
  lemma {:induction false} HeadDeterminesChain(f: Format, rows: seq<EventRow>, ts: seq<EventRow>, known: set<Bytes>)
    requires Readable(f) && AllOk(f, rows) && AllOk(f, ts) && CollisionFree(f.h, known)
    requires Preimages(f, rows) + Preimages(f, ts) <= known
    requires HeadOf(f, Genesis(f), rows) == HeadOf(f, Genesis(f), ts)
    ensures SameContents(f, rows, ts)
    decreases |rows| + |ts|
  {
    HeadNotGenesis(f, rows, known);
    HeadNotGenesis(f, ts, known);
    assert rows == [] <==> ts == [];
    if rows != [] {
      var r0, t0 := rows[..|rows| - 1], ts[..|ts| - 1];
      var r, t := rows[|rows| - 1], ts[|ts| - 1];
      assert f.preimage(HeadOf(f, Genesis(f), r0), r) in known;
      assert f.preimage(HeadOf(f, Genesis(f), t0), t) in known;
      HeadDeterminesChain(f, r0, t0, known);
      assert rows == r0 + [r] && ts == t0 + [t];
    }
  }

  lemma HeadNotGenesis(f: Format, rows: seq<EventRow>, known: set<Bytes>)
    requires Readable(f) && AllOk(f, rows) && CollisionFree(f.h, known) && Preimages(f, rows) <= known
    ensures HeadOf(f, Genesis(f), rows) == Genesis(f) <==> rows == []
  {
    GenesisKnown(f, rows);
    if rows != [] {
      assert f.preimage(HeadOf(f, Genesis(f), rows[..|rows| - 1]), rows[|rows| - 1]) in known;
    }
  }

  lemma {:induction false} SameContentsSameHead(f: Format, prev: Digest, rows: seq<EventRow>, ts: seq<EventRow>)
    requires Readable(f) && AllOk(f, rows) && AllOk(f, ts) && SameContents(f, rows, ts)
    ensures HeadOf(f, prev, rows) == HeadOf(f, prev, ts)
  {
    if rows != [] {
      var n := |rows| - 1;
      SameContentsSameHead(f, prev, rows[..n], ts[..n]);
      var p := HeadOf(f, prev, rows[..n]);
      assert f.preimage(p, rows[n]) == f.preimage(p, ts[n]);
    }
  }

  lemma LinkedPrefix(f: Format, prev: Digest, rows: seq<EventRow>, k: nat)
    requires Linked(f, prev, rows) && k <= |rows|
    ensures Linked(f, prev, rows[..k])
  {
    forall i | 0 <= i < k ensures rows[..k][i].eventHash == Some(HeadOf(f, prev, rows[..k][..i + 1])) {
      assert rows[..k][..i + 1] == rows[..i + 1];
    }
  }

  /** Verifier soundness. `chain` is the protected suffix as it was appended and
      the stored head is the one that sealed its first k rows (all of them for
      the current head). Whatever was done to the rows, the verifier accepts only
      if the protected suffix it finds is exactly that prefix. */
  lemma {:induction false} VerifierSound(f: Format, chain: seq<EventRow>, k: nat, tampered: seq<EventRow>, known: set<Bytes>)
    requires Readable(f) && AllOk(f, chain) && AllOk(f, Protected(tampered))
    requires Linked(f, Genesis(f), chain) && 0 < k <= |chain|
    requires CollisionFree(f.h, known) && Preimages(f, chain[..k]) + Preimages(f, Protected(tampered)) <= known
    requires Verified(f, tampered, Some(HeadOf(f, Genesis(f), chain[..k]))).ok
    ensures SameRows(f, chain[..k], Protected(tampered))
  {
    var g := Genesis(f);
    var sealed, found := chain[..k], Protected(tampered);
    VerifiedMeaning(f, tampered, Some(HeadOf(f, g, sealed)));
    HeadDeterminesChain(f, sealed, found, known);
    LinkedPrefix(f, g, chain, k);
    forall i | 0 <= i < k ensures sealed[i].eventHash == found[i].eventHash {
      SameContentsSameHead(f, g, sealed[..i + 1], found[..i + 1]);
    }
  }

  /** Same versions and hashes, covered content first altered at j. */
  predicate AlteredAt(f: Format, rows: seq<EventRow>, tampered: seq<EventRow>, j: nat)
  {
    |tampered| == |rows| && j < |rows| && !f.same(rows[j], tampered[j]) &&
    (forall i | 0 <= i < j :: f.same(rows[i], tampered[i])) &&
    forall i | 0 <= i < |rows| ::
      tampered[i].eventHash == rows[i].eventHash && tampered[i].aggregateVersion == rows[i].aggregateVersion
  }

  /** Blame. If rows keep their versions and stored hashes and only covered
      content was changed, the first protected row changed is the one reported,
      whatever the stored head says. */
  lemma FirstBrokenIsFirstAltered(f: Format, rows: seq<EventRow>, tampered: seq<EventRow>, head: Option<Digest>, newHead: Option<Digest>, j: nat)
    requires Readable(f) && Verified(f, rows, head).ok
    requires |tampered| == |rows| && forall i | 0 <= i < |rows| :: tampered[i].eventHash == rows[i].eventHash
    requires AllOk(f, Protected(rows)) && AllOk(f, Protected(tampered)) && AlteredAt(f, Protected(rows), Protected(tampered), j)
    requires var prev := HeadOf(f, Genesis(f), Protected(rows)[..j]);
             CollisionFree(f.h, {f.preimage(prev, Protected(rows)[j]), f.preimage(prev, Protected(tampered)[j])})
    ensures Verified(f, tampered, newHead) == Verification(false, j, Some(Protected(rows)[j].aggregateVersion), HashMismatch)
  {
    SameChainStart(rows, tampered);
    VerifiedMeaning(f, rows, head);
    WalkToFirstAltered(f, Genesis(f), Protected(rows), Protected(tampered), j, 0);
  }

  lemma {:induction false} SameChainStart(rows: seq<EventRow>, tampered: seq<EventRow>)
    requires |tampered| == |rows| && forall i | 0 <= i < |rows| :: tampered[i].eventHash == rows[i].eventHash
    ensures ChainStart(tampered) == ChainStart(rows)
  {
    if rows != [] { SameChainStart(rows[1..], tampered[1..]); }
  }

  lemma LinkSame(f: Format, p: Digest, r: EventRow, t: EventRow)
    requires Readable(f) && f.ok(r) && f.ok(t)
    ensures f.same(r, t) ==> Link(f, p, r) == Link(f, p, t)
    ensures CollisionFree(f.h, {f.preimage(p, r), f.preimage(p, t)}) && Link(f, p, r) == Link(f, p, t) ==> f.same(r, t)
  {
    var a, b := f.preimage(p, r), f.preimage(p, t);
  }

  lemma HeadOfPrefixShift(f: Format, prev: Digest, rows: seq<EventRow>, j: nat)
    requires 0 < j < |rows|
    ensures HeadOf(f, prev, rows[..j]) == HeadOf(f, Link(f, prev, rows[0]), rows[1..][..j - 1])
    ensures rows[1..][j - 1] == rows[j]
  {
    HeadOfShift(f, prev, rows[..j]);
    assert rows[..j][1..] == rows[1..][..j - 1];
  }

  lemma AlteredShift(f: Format, rows: seq<EventRow>, tampered: seq<EventRow>, j: nat)
    requires AlteredAt(f, rows, tampered, j) && j > 0
    ensures AlteredAt(f, rows[1..], tampered[1..], j - 1) && f.same(rows[0], tampered[0])
    ensures tampered[1..][j - 1] == tampered[j]
  {
  }

  lemma WalkOne(f: Format, prev: Digest, rows: seq<EventRow>, checked: nat)
    requires rows != [] && rows[0].eventHash == Some(Link(f, prev, rows[0]))
    ensures Walk(f, rows, prev, checked, rows[0].aggregateVersion) ==
            Walk(f, rows[1..], Link(f, prev, rows[0]), checked + 1, rows[0].aggregateVersion + 1)
  {
  }

  lemma {:induction false} WalkToFirstAltered(f: Format, prev: Digest, rows: seq<EventRow>, tampered: seq<EventRow>, j: nat, checked: nat)
    requires Readable(f) && AllOk(f, rows) && AllOk(f, tampered) && AlteredAt(f, rows, tampered, j)
    requires Linked(f, prev, rows) && Consecutive(rows, rows[0].aggregateVersion)
    requires var p := HeadOf(f, prev, rows[..j]); CollisionFree(f.h, {f.preimage(p, rows[j]), f.preimage(p, tampered[j])})
    ensures Walk(f, tampered, prev, checked, rows[0].aggregateVersion) ==
            Broken(Verification(false, checked + j, Some(rows[j].aggregateVersion), HashMismatch))
    decreases |rows|
  {
    hide *;
    AlteredMeans(f, rows, tampered, j);
    if j == 0 {
      WalkAltered(f, prev, rows, tampered, checked);
    } else {
      WalkPassed(f, prev, rows, tampered, j, checked);
      HeadOfPrefixShift(f, prev, rows, j);
      WalkToFirstAltered(f, Link(f, prev, rows[0]), rows[1..], tampered[1..], j - 1, checked + 1);
    }
  }

  lemma AlteredMeans(f: Format, rows: seq<EventRow>, tampered: seq<EventRow>, j: nat)
    requires AlteredAt(f, rows, tampered, j)
    ensures j < |rows| == |tampered|
  {
  }

  /** The walk passes the rows before the altered one. */
  lemma WalkPassed(f: Format, prev: Digest, rows: seq<EventRow>, tampered: seq<EventRow>, j: nat, checked: nat)
    requires Readable(f) && AllOk(f, rows) && AllOk(f, tampered) && AlteredAt(f, rows, tampered, j) && j > 0
    requires Linked(f, prev, rows) && Consecutive(rows, rows[0].aggregateVersion)
    ensures var p := Link(f, prev, rows[0]);
            Walk(f, tampered, prev, checked, rows[0].aggregateVersion) == Walk(f, tampered[1..], p, checked + 1, rows[1..][0].aggregateVersion) &&
            Linked(f, p, rows[1..]) && Consecutive(rows[1..], rows[1..][0].aggregateVersion) &&
            AllOk(f, rows[1..]) && AllOk(f, tampered[1..]) && AlteredAt(f, rows[1..], tampered[1..], j - 1) && tampered[1..][j - 1] == tampered[j]
  {
    LinkedShift(f, prev, rows);
    LinkSame(f, prev, rows[0], tampered[0]);
    ConsecutiveShift(rows, rows[0].aggregateVersion);
    AlteredShift(f, rows, tampered, j);
    assert rows[1..][0] == rows[1];
    hide Linked, Readable, Link, Walk;
    WalkOne(f, prev, tampered, checked);
  }

  lemma WalkAltered(f: Format, prev: Digest, rows: seq<EventRow>, tampered: seq<EventRow>, checked: nat)
    requires Readable(f) && AllOk(f, rows) && AllOk(f, tampered) && AlteredAt(f, rows, tampered, 0)
    requires Linked(f, prev, rows) && CollisionFree(f.h, {f.preimage(HeadOf(f, prev, rows[..0]), rows[0]), f.preimage(HeadOf(f, prev, rows[..0]), tampered[0])})
    ensures Walk(f, tampered, prev, checked, rows[0].aggregateVersion) ==
            Broken(Verification(false, checked, Some(rows[0].aggregateVersion), HashMismatch))
  {
    assert rows[..0] == [] && HeadOf(f, prev, rows[..0]) == prev;
    LinkedShift(f, prev, rows);
    LinkSame(f, prev, rows[0], tampered[0]);
    hide Readable, CollisionFree, Link, Linked, HeadOf;
  }

  // ---------------------------------------------------------------------------
  // Completeness over runs of appends
  // ---------------------------------------------------------------------------

  /** Versions are exactly 1..current. */
  predicate WellVersioned(s: Option<Stream>)
  {
    s.Some? ==> s.value.current == |s.value.rows| > 0 && Consecutive(s.value.rows, 1)
  }

  /** Protected from some row on, and linked from genesis to the stored head. */
  predicate Unbroken(f: Format, s: Option<Stream>)
  {
    Linked(f, Genesis(f), Protected(RowsOf(s))) && AllOk(f, Protected(RowsOf(s))) &&
    HeadIn(s) == if Protected(RowsOf(s)) == [] then None else Some(HeadOf(f, Genesis(f), Protected(RowsOf(s))))
  }

  /** An unprotected row after a protected one. */
  ghost predicate Holed(s: Option<Stream>)
  {
    exists i :: ChainStart(RowsOf(s)) < i < |RowsOf(s)| && RowsOf(s)[i].eventHash.None?
  }

  lemma HoleBreaks(f: Format, s: Option<Stream>)
    requires Holed(s)
    ensures !Unbroken(f, s) && !Verified(f, RowsOf(s), HeadIn(s)).ok
  {
    var rows := RowsOf(s);
    var i :| ChainStart(rows) < i < |rows| && rows[i].eventHash.None?;
    assert Protected(rows)[i - ChainStart(rows)] == rows[i];
    VerifiedMeaning(f, rows, HeadIn(s));
  }

  lemma UnbrokenVerifies(f: Format, s: Option<Stream>)
    requires WellVersioned(s) && Unbroken(f, s)
    ensures Verified(f, RowsOf(s), HeadIn(s)) == Verification(true, |Protected(RowsOf(s))|, None, Intact)
  {
    var rows := RowsOf(s);
    VerifiedMeaning(f, rows, HeadIn(s));
    forall i | 0 <= i < |Protected(rows)|
      ensures Protected(rows)[i].aggregateVersion == Protected(rows)[0].aggregateVersion + i
    {
      assert Protected(rows)[i] == rows[ChainStart(rows) + i];
    }
  }

  lemma {:induction false} HeadOfConcat(f: Format, prev: Digest, a: seq<EventRow>, b: seq<EventRow>)
    ensures HeadOf(f, prev, a + b) == HeadOf(f, HeadOf(f, prev, a), b)
  {
    if b == [] {
      assert a + b == a;
    } else {
      var n := |b| - 1;
      HeadOfConcat(f, prev, a, b[..n]);
      assert (a + b)[..|a| + n] == a + b[..n];
    }
  }

  lemma LinkedConcat(f: Format, prev: Digest, a: seq<EventRow>, b: seq<EventRow>)
    requires Linked(f, prev, a) && Linked(f, HeadOf(f, prev, a), b)
    ensures Linked(f, prev, a + b)
  {
    forall i | 0 <= i < |a + b| ensures (a + b)[i].eventHash == Some(HeadOf(f, prev, (a + b)[..i + 1])) {
      if i < |a| {
        assert (a + b)[..i + 1] == a[..i + 1];
      } else {
        assert (a + b)[..i + 1] == a + b[..i + 1 - |a|];
        HeadOfConcat(f, prev, a, b[..i + 1 - |a|]);
      }
    }
  }

  lemma {:induction false} ChainStartConcat(a: seq<EventRow>, b: seq<EventRow>)
    ensures ChainStart(a + b) == if ChainStart(a) < |a| then ChainStart(a) else |a| + ChainStart(b)
  {
    if a == [] {
      assert a + b == b;
    } else {
      assert (a + b)[1..] == a[1..] + b;
      ChainStartConcat(a[1..], b);
    }
  }

  /** The rows a chained batch inserts are linked to the hash they were chained
      to, although their payloads went through the jsonb round trip. */
  lemma ChainedRowsLinked(f: Format, jsonb: Jsonb, prev: Digest, raw: seq<EventRow>)
    requires Readable(f) && Keeps(f, jsonb) && AllOk(f, raw) && Stores(jsonb, raw)
    ensures var rows := ChainedRows(f, jsonb, prev, raw);
            AllOk(f, rows) && Linked(f, prev, rows) && HeadOf(f, prev, rows) == HeadOf(f, prev, raw)
  {
    var rows := ChainedRows(f, jsonb, prev, raw);
    ChainedRowsSame(f, jsonb, prev, raw);
    assert forall i | 0 <= i < |rows| :: rows[i].eventHash == Some(HeadOf(f, prev, raw[..i + 1])) by { hide Keeps, Readable, Stores, HeadOf; }
    hide Keeps, ChainedRows, Stores, Readable, HeadOf;
    SameContentsSameHead(f, prev, raw, rows);
    forall i | 0 <= i < |rows| ensures rows[i].eventHash == Some(HeadOf(f, prev, rows[..i + 1])) {
      SamePrefix(f, raw, rows, i + 1);
      SameContentsSameHead(f, prev, raw[..i + 1], rows[..i + 1]);
    }
  }

  lemma SamePrefix(f: Format, rows: seq<EventRow>, ts: seq<EventRow>, n: nat)
    requires AllOk(f, rows) && AllOk(f, ts) && SameContents(f, rows, ts) && n <= |rows|
    ensures n <= |ts| && AllOk(f, rows[..n]) && AllOk(f, ts[..n]) && SameContents(f, rows[..n], ts[..n])
  {
  }

  lemma ChainedRowsSame(f: Format, jsonb: Jsonb, prev: Digest, raw: seq<EventRow>)
    requires Keeps(f, jsonb) && AllOk(f, raw) && Stores(jsonb, raw)
    ensures AllOk(f, ChainedRows(f, jsonb, prev, raw)) && SameContents(f, raw, ChainedRows(f, jsonb, prev, raw))
  {
    var rows := ChainedRows(f, jsonb, prev, raw);
    forall i | 0 <= i < |raw| ensures f.ok(rows[i]) && f.same(raw[i], rows[i]) {
      assert rows[i] == Inserted(jsonb, raw[i], Some(HeadOf(f, prev, raw[..i + 1])));
    }
  }

  /** Versions stay consecutive whatever is appended. */
  lemma AppendedVersions(f: Format, chained: bool, jsonb: Jsonb, s: Option<Stream>, expected: int, raw: seq<EventRow>)
    requires WellVersioned(s) && Consecutive(raw, expected + 1)
    requires Appended(f, chained, jsonb, s, expected, raw).Ok?
    ensures WellVersioned(Appended(f, chained, jsonb, s, expected, raw).value)
  {
  }

  /** One append that changes an unbroken stream, exactly: it stays unbroken if
      and only if the append is chained or the stream has no head. Otherwise a
      hole is left. */
  lemma AppendKeepsUnbroken(f: Format, chained: bool, jsonb: Jsonb, s: Option<Stream>, expected: int, raw: seq<EventRow>)
    requires Readable(f) && Keeps(f, jsonb) && Unbroken(f, s) && raw != []
    requires Appended(f, chained, jsonb, s, expected, raw).Ok?
    ensures var t := Appended(f, chained, jsonb, s, expected, raw).value;
            if chained || HeadIn(s).None? then Unbroken(f, t) else Holed(t)
  {
    hide Appended, Unbroken, Readable, Keeps, Holed;
    if chained { ChainedKeepsUnbroken(f, jsonb, s, expected, raw); } else { PlainAppend(f, jsonb, s, expected, raw); }
  }

  lemma PlainAppend(f: Format, jsonb: Jsonb, s: Option<Stream>, expected: int, raw: seq<EventRow>)
    requires Unbroken(f, s) && raw != [] && Appended(f, false, jsonb, s, expected, raw).Ok?
    ensures var t := Appended(f, false, jsonb, s, expected, raw).value;
            if HeadIn(s).None? then Unbroken(f, t) else Holed(t)
  {
    var t := Appended(f, false, jsonb, s, expected, raw).value;
    var rows, added := RowsOf(s), PlainRows(jsonb, raw);
    assert RowsOf(t) == rows + added && HeadIn(t) == HeadIn(s);
    assert HeadIn(s).None? <==> ChainStart(rows) == |rows| by { hide Linked, HeadOf, AllOk, ChainStart; }
    hide Appended, Unbroken, PlainRows;
    PlainChainStart(added);
    hide ChainStart;
    ChainStartConcat(rows, added);
    if HeadIn(s).None? {
      NothingProtected(f, t);
    } else {
      assert RowsOf(t)[|rows|] == added[0];
    }
  }

  lemma NothingProtected(f: Format, s: Option<Stream>)
    requires ChainStart(RowsOf(s)) == |RowsOf(s)| && HeadIn(s).None?
    ensures Unbroken(f, s)
  {
    assert Protected(RowsOf(s)) == [];
  }

  lemma ChainedKeepsUnbroken(f: Format, jsonb: Jsonb, s: Option<Stream>, expected: int, raw: seq<EventRow>)
    requires Readable(f) && Keeps(f, jsonb) && Unbroken(f, s) && raw != []
    requires Appended(f, true, jsonb, s, expected, raw).Ok?
    ensures Unbroken(f, Appended(f, true, jsonb, s, expected, raw).value)
  {
    var prev := PrevIn(f, s);
    var rows, added := RowsOf(s), ChainedRows(f, jsonb, prev, raw);
    ChainedRowsLinked(f, jsonb, prev, raw);
    hide Readable, Keeps, Linked, ChainedRows;
    assert added != [];
    assert prev == HeadOf(f, Genesis(f), Protected(rows));
    UnbrokenConcat(f, rows, added);
  }

  lemma UnbrokenConcat(f: Format, rows: seq<EventRow>, added: seq<EventRow>)
    requires Linked(f, Genesis(f), Protected(rows)) && AllOk(f, Protected(rows)) && added != []
    requires Linked(f, HeadOf(f, Genesis(f), Protected(rows)), added) && AllOk(f, added)
    ensures Protected(rows + added) == Protected(rows) + added
    ensures Linked(f, Genesis(f), Protected(rows + added)) && AllOk(f, Protected(rows + added))
    ensures HeadOf(f, Genesis(f), Protected(rows + added)) == HeadOf(f, HeadOf(f, Genesis(f), Protected(rows)), added)
  {
    LinkedFirst(f, HeadOf(f, Genesis(f), Protected(rows)), added);
    ProtectedConcat(rows, added);
    hide Protected;
    LinkedConcat(f, Genesis(f), Protected(rows), added);
    HeadOfConcat(f, Genesis(f), Protected(rows), added);
  }

  lemma ProtectedConcat(rows: seq<EventRow>, added: seq<EventRow>)
    requires ChainStart(added) == 0
    ensures Protected(rows + added) == Protected(rows) + added
  {
    ChainStartConcat(rows, added);
  }

  lemma LinkedFirst(f: Format, prev: Digest, rows: seq<EventRow>)
    requires Linked(f, prev, rows) && rows != []
    ensures ChainStart(rows) == 0
  {
    assert rows[0].eventHash.Some?;
  }

  lemma {:induction false} PlainChainStart(rows: seq<EventRow>)
    requires forall i | 0 <= i < |rows| :: rows[i].eventHash.None?
    ensures ChainStart(rows) == |rows|
  {
    if rows != [] { PlainChainStart(rows[1..]); }
  }

  /** A hole is never closed. */
  lemma HoleStays(f: Format, chained: bool, jsonb: Jsonb, s: Option<Stream>, expected: int, raw: seq<EventRow>)
    requires Holed(s) && Appended(f, chained, jsonb, s, expected, raw).Ok?
    ensures Holed(Appended(f, chained, jsonb, s, expected, raw).value)
  {
    var t := Appended(f, chained, jsonb, s, expected, raw).value;
    var rows := RowsOf(s);
    if raw != [] {
      var added := RowsOf(t)[|rows|..];
      assert RowsOf(t) == rows + added;
      ChainStartConcat(rows, added);
      var i :| ChainStart(rows) < i < |rows| && rows[i].eventHash.None?;
      assert RowsOf(t)[i] == rows[i];
    }
  }

  datatype AppendCall = AppendCall(chained: bool, expected: int, raw: seq<EventRow>)

  function AfterCall(f: Format, jsonb: Jsonb, s: Option<Stream>, c: AppendCall): Option<Stream>
  {
    var r := Appended(f, c.chained, jsonb, s, c.expected, c.raw);
    if r.Ok? then r.value else s
  }

  /** A run of appends, successful and rejected ones, on a new stream. */
  function AfterCalls(f: Format, jsonb: Jsonb, calls: seq<AppendCall>): Option<Stream>
  {
    if calls == [] then None else AfterCall(f, jsonb, AfterCalls(f, jsonb, calls[..|calls| - 1]), calls[|calls| - 1])
  }

  /** An append is unsafe when it gets through unchained on a stream with a head. */
  predicate SwitchedOff(f: Format, jsonb: Jsonb, s: Option<Stream>, c: AppendCall)
  {
    !c.chained && HeadIn(s).Some? && c.raw != [] && Appended(f, c.chained, jsonb, s, c.expected, c.raw).Ok?
  }

  predicate NeverSwitchedOff(f: Format, jsonb: Jsonb, calls: seq<AppendCall>)
  {
    forall i | 0 <= i < |calls| :: !SwitchedOff(f, jsonb, AfterCalls(f, jsonb, calls[..i]), calls[i])
  }

  /** Chain completeness: after any run of appends the versions are 1..current,
      and the stream verifies, counting every protected event, exactly when no
      append got through unchained on a stream that has a head. */
  lemma {:induction false} ChainComplete(f: Format, jsonb: Jsonb, calls: seq<AppendCall>)
    requires Readable(f) && Keeps(f, jsonb)
    requires forall i | 0 <= i < |calls| :: Consecutive(calls[i].raw, calls[i].expected + 1)
    ensures var s := AfterCalls(f, jsonb, calls);
            WellVersioned(s) &&
            (Verified(f, RowsOf(s), HeadIn(s)).ok <==> NeverSwitchedOff(f, jsonb, calls)) &&
            (NeverSwitchedOff(f, jsonb, calls) ==>
               Verified(f, RowsOf(s), HeadIn(s)).eventsChecked == |RowsOf(s)| - ChainStart(RowsOf(s)))
  {
    RunInvariant(f, jsonb, calls);
    var s := AfterCalls(f, jsonb, calls);
    if NeverSwitchedOff(f, jsonb, calls) {
      UnbrokenVerifies(f, s);
    } else {
      HoleBreaks(f, s);
    }
  }

  lemma {:induction false} RunInvariant(f: Format, jsonb: Jsonb, calls: seq<AppendCall>)
    requires Readable(f) && Keeps(f, jsonb)
    requires forall i | 0 <= i < |calls| :: Consecutive(calls[i].raw, calls[i].expected + 1)
    ensures var s := AfterCalls(f, jsonb, calls);
            WellVersioned(s) && if NeverSwitchedOff(f, jsonb, calls) then Unbroken(f, s) else Holed(s)
  {
    hide *;
    if calls == [] {
      NoCalls(f, jsonb);
    } else {
      var n := |calls| - 1;
      RunInvariant(f, jsonb, calls[..n]);
      NeverSwitchedOffStep(f, jsonb, calls);
      LastCall(f, jsonb, calls);
      CallInvariant(f, jsonb, AfterCalls(f, jsonb, calls[..n]), calls[n]);
    }
  }

  lemma NoCalls(f: Format, jsonb: Jsonb)
    ensures WellVersioned(AfterCalls(f, jsonb, [])) && NeverSwitchedOff(f, jsonb, []) && Unbroken(f, AfterCalls(f, jsonb, []))
  {
  }

  lemma LastCall(f: Format, jsonb: Jsonb, calls: seq<AppendCall>)
    requires calls != []
    ensures AfterCalls(f, jsonb, calls) == AfterCall(f, jsonb, AfterCalls(f, jsonb, calls[..|calls| - 1]), calls[|calls| - 1])
  {
    hide AfterCall;
  }

  lemma NeverSwitchedOffStep(f: Format, jsonb: Jsonb, calls: seq<AppendCall>)
    requires calls != []
    ensures var n := |calls| - 1;
            NeverSwitchedOff(f, jsonb, calls) <==>
              NeverSwitchedOff(f, jsonb, calls[..n]) && !SwitchedOff(f, jsonb, AfterCalls(f, jsonb, calls[..n]), calls[n])
  {
    var n := |calls| - 1;
    hide SwitchedOff, AfterCalls;
    forall i | 0 <= i < n
      ensures SwitchedOff(f, jsonb, AfterCalls(f, jsonb, calls[..n][..i]), calls[..n][i]) ==
              SwitchedOff(f, jsonb, AfterCalls(f, jsonb, calls[..i]), calls[i])
    {
      assert calls[..n][..i] == calls[..i];
    }
  }

  lemma CallInvariant(f: Format, jsonb: Jsonb, s: Option<Stream>, c: AppendCall)
    requires Readable(f) && Keeps(f, jsonb) && WellVersioned(s) && Consecutive(c.raw, c.expected + 1)
    ensures WellVersioned(AfterCall(f, jsonb, s, c))
    ensures Unbroken(f, s) && !SwitchedOff(f, jsonb, s, c) ==> Unbroken(f, AfterCall(f, jsonb, s, c))
    ensures Unbroken(f, s) && SwitchedOff(f, jsonb, s, c) ==> Holed(AfterCall(f, jsonb, s, c))
    ensures Holed(s) ==> Holed(AfterCall(f, jsonb, s, c))
  {
    if Appended(f, c.chained, jsonb, s, c.expected, c.raw).Ok? && c.raw != [] {
      AppendedVersions(f, c.chained, jsonb, s, c.expected, c.raw);
      hide Unbroken, Holed, Readable, Keeps, Appended;
      if Unbroken(f, s) { AppendKeepsUnbroken(f, c.chained, jsonb, s, c.expected, c.raw); }
      if Holed(s) { HoleStays(f, c.chained, jsonb, s, c.expected, c.raw); }
    }
  }
}
