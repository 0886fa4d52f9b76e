/** The claim pipeline of one reader on one handle, one call at a time: which aborts and
    drops keep loans pinned, and which leave holes or duplicates behind. */
module Pipeline {

  /** `w` records are published, `cursor` consumed, `base` is `claim_base`; `live` holds
      the index of each live loan, once per loan. */
  datatype Pipe = Pipe(w: nat, cursor: nat, base: nat, live: multiset<nat>)

  datatype Op =
    | Publish
    | Claim
    | Commit(i: nat)
    | Drop(i: nat)
    | Abort(i: nat)
    | Pop

  /** The index a claim would take. */
  function Head(p: Pipe): nat { if p.base < p.cursor then p.cursor else p.base }

  function DoClaim(p: Pipe): Pipe {
    if Head(p) >= p.w then p
    else p.(base := Head(p) + 1, live := p.live + multiset{Head(p)})
  }

  /** A commit off the cursor is rejected and changes nothing. */
  function DoCommit(p: Pipe, i: nat): Pipe {
    if i == p.cursor then p.(cursor := i + 1, live := p.live - multiset{i}) else p
  }

  function DoDrop(p: Pipe, i: nat): Pipe {
    if i == p.cursor then p.(cursor := i + 1, live := p.live - multiset{i}) else p.(live := p.live - multiset{i})
  }

  function DoAbort(p: Pipe, i: nat): Pipe {
    p.(base := if i < p.base then i else p.base, live := p.live - multiset{i})
  }

  /** A pop, on this handle or another: turned away while a loan is live. */
  function DoPop(p: Pipe): Pipe {
    if p.live == multiset{} && p.cursor < p.w then p.(cursor := p.cursor + 1) else p
  }

  function Do(p: Pipe, op: Op): Pipe {
    match op
    case Publish => p.(w := p.w + 1)
    case Claim => DoClaim(p)
    case Commit(i) => DoCommit(p, i)
    case Drop(i) => DoDrop(p, i)
    case Abort(i) => DoAbort(p, i)
    case Pop => DoPop(p)
  }

  /** Resolutions are of live loans; aborts of the topmost one. */
  predicate Allowed(p: Pipe, op: Op) {
    && (op.Commit? || op.Drop? || op.Abort? ==> op.i in p.live)
    && (op.Abort? ==> forall j :: j in p.live ==> j <= op.i)
  }

  ghost predicate AllowedAll(p: Pipe, ops: seq<Op>)
    decreases |ops|
  {
    ops == [] || (Allowed(p, ops[0]) && AllowedAll(Do(p, ops[0]), ops[1..]))
  }

  function DoAll(p: Pipe, ops: seq<Op>): Pipe
    decreases |ops|
  {
    if ops == [] then p else DoAll(Do(p, ops[0]), ops[1..])
  }

  // ---- pinned loans -------------------------------------------------------------------

  /** No live loan is behind the cursor, which is what makes dereferencing it sound. */
  ghost predicate Pinned(p: Pipe) {
    forall j :: j in p.live ==> p.cursor <= j
  }

  /** Every way to go on keeps every live loan pinned. */
  ghost predicate Safe(p: Pipe) {
    forall ops :: AllowedAll(p, ops) ==> Pinned(DoAll(p, ops))
  }

  /** Live loans are distinct, pinned, and below `base`: how disciplined use leaves things. */
  ghost predicate Tidy(p: Pipe) {
    && p.cursor <= p.w && p.base <= p.w
    && forall j :: j in p.live ==> p.live[j] == 1 && p.cursor <= j < p.base
  }

  /** `h` was handed out and given back without being consumed: the cursor cannot pass it
      while a loan is live, and no claim hands it out again. */
  ghost predicate Stuck(p: Pipe, h: nat) {
    && p.cursor <= h < p.base && h !in p.live
    && (forall j :: j in p.live && j < h ==> p.live[j] == 1 && p.cursor <= j)
    && (exists j :: j in p.live && h < j)
    && p.base <= p.w && forall j :: j in p.live ==> j < p.w
  }

  ghost predicate Held(p: Pipe) { Tidy(p) || exists h :: Stuck(p, h) }

  lemma TidyKeeps(p: Pipe, op: Op)
    requires Tidy(p) && Allowed(p, op)
    ensures Tidy(Do(p, op))
  {
  }

  lemma StuckKeeps(p: Pipe, h: nat, op: Op)
    requires Stuck(p, h) && Allowed(p, op)
    ensures Held(Do(p, op))
  {
    var q := Do(p, op);
    if exists j :: j in q.live && h < j {
      assert Stuck(q, h);
    } else {
      assert Tidy(q);
    }
  }

  lemma {:induction false} HeldKeeps(p: Pipe, ops: seq<Op>)
    requires Held(p) && AllowedAll(p, ops)
    ensures Held(DoAll(p, ops))
    decreases |ops|
  {
    if ops != [] {
      if Tidy(p) {
        TidyKeeps(p, ops[0]);
      } else {
        var h :| Stuck(p, h);
        StuckKeeps(p, h, ops[0]);
      }
      HeldKeeps(Do(p, ops[0]), ops[1..]);
    }
  }

  // ---- when an abort is safe ------------------------------------------------------------

  function Claims(n: nat): seq<Op> { seq(n, _ => Claim) }

  function Commits(from: nat, n: nat): seq<Op> { seq(n, k requires 0 <= k => Commit(from + k)) }

  lemma {:induction false} ClaimsRun(p: Pipe, n: nat)
    requires p.cursor <= p.base && p.base + n <= p.w
    ensures AllowedAll(p, Claims(n))
    ensures var q := DoAll(p, Claims(n));
            && q.w == p.w && q.cursor == p.cursor && q.base == p.base + n
            && forall x :: q.live[x] == p.live[x] + (if p.base <= x < p.base + n then 1 else 0)
    decreases n
  {
    if n > 0 {
      assert Claims(n)[1..] == Claims(n - 1);
      ClaimsRun(Do(p, Claim), n - 1);
    }
  }

  lemma CommitStep(p: Pipe)
    requires p.cursor in p.live
    ensures var q := Do(p, Commit(p.cursor));
            && q.w == p.w && q.base == p.base && q.cursor == p.cursor + 1
            && forall x :: q.live[x] == p.live[x] - (if x == p.cursor then 1 else 0)
  {
  }

  lemma {:induction false} CommitsRun(p: Pipe, n: nat)
    requires forall x :: p.cursor <= x < p.cursor + n ==> x in p.live
    ensures AllowedAll(p, Commits(p.cursor, n))
    ensures var q := DoAll(p, Commits(p.cursor, n));
            && q.cursor == p.cursor + n
            && forall x :: q.live[x] == p.live[x] - (if p.cursor <= x < p.cursor + n then 1 else 0)
    decreases n
  {
    if n > 0 {
      assert p.cursor in p.live;
      assert Commits(p.cursor, n)[1..] == Commits(p.cursor + 1, n - 1);
      assert Commits(p.cursor, n)[0] == Commit(p.cursor);
      CommitStep(p);
      hide Do, Commits;
      CommitsRun(Do(p, Commit(p.cursor)), n - 1);
    }
  }

  lemma {:induction false} Concat(p: Pipe, first: seq<Op>, rest: seq<Op>)
    requires AllowedAll(p, first) && AllowedAll(DoAll(p, first), rest)
    ensures AllowedAll(p, first + rest)
    ensures DoAll(p, first + rest) == DoAll(DoAll(p, first), rest)
    decreases |first|
  {
    if first == [] {
      assert first + rest == rest;
    } else {
      assert (first + rest)[1..] == first[1..] + rest;
      Concat(Do(p, first[0]), first[1..], rest);
    }
  }

  /** Aborting below a later loan `j`, with no hole to hold the cursor back: claiming the
      indices up to `j` again and committing in order leaves the old loan behind. */
  lemma AbortUnpins(p: Pipe, i: nat, j: nat)
    requires Tidy(p) && i in p.live && j in p.live && i < j
    requires forall h :: p.cursor <= h < i ==> h in p.live
    ensures !Safe(DoAbort(p, i))
  {
    hide DoAll, AllowedAll, Do, Claims, Commits;
    var q := DoAbort(p, i);
    var first := Claims(j + 1 - i);
    ClaimsRun(q, j + 1 - i);
    var c := DoAll(q, first);
    forall x | c.cursor <= x < j + 1 ensures x in c.live {
      assert x < i ==> x in p.live;
    }
    var rest := Commits(c.cursor, j + 1 - c.cursor);
    CommitsRun(c, j + 1 - c.cursor);
    Concat(q, first, rest);
    assert DoAll(q, first + rest).live[j] == c.live[j] - 1 == q.live[j] == 1;
    assert !Pinned(DoAll(q, first + rest));
  }

  lemma HeldIsSafe(p: Pipe)
    requires Held(p)
    ensures Safe(p)
  {
    forall ops | AllowedAll(p, ops) ensures Pinned(DoAll(p, ops)) {
      HeldKeeps(p, ops);
    }
  }

  /** The abort discipline, exactly: aborting loan `i` leaves every loan pinned for good if
      and only if no later loan is live, or a dropped index below `i` holds the cursor. */
  lemma AbortSafety(p: Pipe, i: nat)
    requires Tidy(p) && i in p.live
    ensures Safe(DoAbort(p, i)) <==>
              || (forall j :: j in p.live ==> j <= i)
              || (exists h :: p.cursor <= h < i && h !in p.live)
  {
    var q := DoAbort(p, i);
    if j :| j in p.live && i < j {
      if h :| p.cursor <= h < i && h !in p.live {
        assert j in q.live;
        assert Stuck(q, h);
        HeldIsSafe(q);
      } else {
        AbortUnpins(p, i, j);
      }
    } else {
      assert Tidy(q);
      HeldIsSafe(q);
    }
  }

  // ---- contiguity -----------------------------------------------------------------------

  /** The live loans are one each of the indices from the cursor up to `base`, and none
      when `base` lags the cursor. */
  ghost predicate Contiguous(p: Pipe) {
    && p.cursor <= p.w && p.base <= p.w
    && forall j :: p.live[j] == if p.cursor <= j < p.base then 1 else 0
  }

  /** A drop keeps the pipeline contiguous exactly when its loan is at the cursor, an abort
      exactly when its loan is the last one; everything else always does. */
  lemma ContiguousKeeps(p: Pipe, op: Op)
    requires Contiguous(p) && (op.Commit? || op.Drop? || op.Abort? ==> op.i in p.live)
    ensures Contiguous(Do(p, op)) <==> ((op.Drop? ==> op.i == p.cursor) && (op.Abort? ==> op.i + 1 == p.base))
  {
    var q := Do(p, op);
    if op.Drop? && op.i != p.cursor {
      assert q.live[op.i] == 0;
    }
    if op.Abort? && op.i + 1 != p.base {
      assert q.live[p.base - 1] == 1;
    }
  }

  /** In a contiguous pipeline the oldest loan can always commit, and a claim takes the
      cursor index when no loan is live. */
  lemma ContiguousProgress(p: Pipe)
    requires Contiguous(p)
    ensures p.live != multiset{} ==> p.cursor in p.live && DoCommit(p, p.cursor).cursor == p.cursor + 1
    ensures p.live == multiset{} ==> Head(p) == p.cursor
    ensures p.live == multiset{} && p.cursor < p.w ==> DoClaim(p).live == multiset{p.cursor}
    ensures Tidy(p)
  {
    if p.live != multiset{} {
      var j :| j in p.live;
      assert p.live[p.cursor] == 1;
    } else {
      assert p.live[p.cursor] == 0;
    }
  }

  // ---- what an out-of-order drop skips ----------------------------------------------------

  /** Publishes and resolves, but takes nothing. */
  predicate Settles(op: Op) { !op.Claim? && !op.Pop? }

  /** Loan `i` was dropped ahead of the cursor: nobody holds it, the cursor cannot pass it, and
      the pipeline is past it unless something below it was given back. */
  ghost predicate Dropped(p: Pipe, i: nat, rewound: bool) {
    p.cursor <= i && i !in p.live && (i < p.base <==> !rewound)
  }

  lemma DroppedKeeps(p: Pipe, i: nat, rewound: bool, op: Op)
    requires Dropped(p, i, rewound) && Allowed(p, op) && Settles(op)
    ensures Dropped(Do(p, op), i, rewound || (op.Abort? && op.i < i))
  {
  }

  lemma {:induction false} DroppedRun(p: Pipe, i: nat, rewound: bool, ops: seq<Op>)
    requires Dropped(p, i, rewound) && AllowedAll(p, ops) && forall k :: 0 <= k < |ops| ==> Settles(ops[k])
    ensures Dropped(DoAll(p, ops), i, rewound || exists k :: 0 <= k < |ops| && ops[k].Abort? && ops[k].i < i)
    decreases |ops|
  {
    if ops != [] {
      var now := rewound || (ops[0].Abort? && ops[0].i < i);
      DroppedKeeps(p, i, rewound, ops[0]);
      DroppedRun(Do(p, ops[0]), i, now, ops[1..]);
      var rest := ops[1..];
      assert forall k :: 0 <= k < |rest| ==> rest[k] == ops[k + 1];
      if k :| 0 <= k < |ops| && ops[k].Abort? && ops[k].i < i {
        assert k == 0 || rest[k - 1] == ops[k];
      }
    }
  }

  /** From a contiguous pipeline, drop loan `i` ahead of the cursor and then resolve the rest
      in any way: the next claim passes over `i`, which nobody consumed, exactly when no loan
      below it was aborted; and then it takes the index after the last one ever claimed. */
  lemma DropSkips(p: Pipe, i: nat, ops: seq<Op>)
    requires Contiguous(p) && i in p.live && p.cursor < i
    requires AllowedAll(DoDrop(p, i), ops) && forall k :: 0 <= k < |ops| ==> Settles(ops[k])
    ensures var q := DoAll(DoDrop(p, i), ops);
            && q.cursor <= i && i !in q.live
            && (i < Head(q) <==> forall k :: 0 <= k < |ops| && ops[k].Abort? ==> i <= ops[k].i)
            && (i < Head(q) < q.w ==> DoClaim(q).live == q.live + multiset{Head(q)} && i !in DoClaim(q).live)
  {
    DroppedRun(DoDrop(p, i), i, false, ops);
  }
}
