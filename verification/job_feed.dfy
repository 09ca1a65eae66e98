/** The change feed: every durable commit publishes one versioned event into a bounded journal
    and into the subscribers' bounded channels. */
module JobFeed {
  import opened Common
  import opened JobModel
  import opened Text
  import Decimal

  const BUFFER: nat := 128
  const MAX_SUBSCRIBERS: nat := 64

  /** A job as readers see it: the record and the two facts derived from it. */
  datatype JobView = JobView(job: Job, terminal: bool, needsCheck: bool)

  function Detach(j: Job): JobView { JobView(j, Terminal(j.state), NeedsCheck(j)) }

  datatype ResyncReason = InitialSnapshotRequired | CursorInvalid | ServerRestarted | CursorExpired

  datatype Change =
    | Published(version: nat, cursor: string, job: Option<JobView>)
    | ResyncRequired(version: nat, cursor: string, reason: ResyncReason, missingFrom: nat, missingTo: nat)

  /** The part of WebJobs that its mutex protects. A cancel function is the context it ends;
      `dead` holds the contexts already ended. */
  datatype Core = Core(store: Store, instance: string, journal: seq<Change>, subs: map<nat, seq<Change>>,
                       dropped: nat, cancels: map<Id, nat>, dead: set<nat>)

  function Version(c: Core): nat { |c.store.audit| }

  function StreamCursor(instance: string, version: nat): string { instance + ":" + Decimal.Format(version) }

  function Event(instance: string, s: Store, id: Id): Change {
    Published(|s.audit|, StreamCursor(instance, |s.audit|), if id in s.jobs then Some(Detach(s.jobs[id])) else None)
  }

  function Trim(journal: seq<Change>): seq<Change> {
    if |journal| > BUFFER then journal[|journal| - BUFFER..] else journal
  }

  function Deliver(subs: map<nat, seq<Change>>, e: Change): map<nat, seq<Change>> {
    map s | s in subs :: if |subs[s]| < BUFFER then subs[s] + [e] else subs[s]
  }

  function Full(subs: map<nat, seq<Change>>): set<nat> { set s | s in subs && |subs[s]| >= BUFFER }

  /** One durable write that succeeded: the new records, one audit entry, one event. */
  function Commit(c: Core, actor: Id, id: Id, op: Operation, next: Store): Core {
    var s := next.(audit := next.audit + [Entry(actor, id, op)]);
    var e := Event(c.instance, s, id);
    c.(store := s, journal := Trim(c.journal + [e]), subs := Deliver(c.subs, e), dropped := c.dropped + |Full(c.subs)|)
  }

  // ---------- subscribing ----------

  /** Which version a cursor asks to continue from, or why it cannot be replayed. */
  function Requested(c: Core, cursor: string): Result<nat, ResyncReason> {
    var cut := IndexOf(cursor, ':');
    if cursor == "" then Err(InitialSnapshotRequired)
    else if cut == |cursor| then Err(CursorInvalid)
    else
      match Decimal.ParseUint(cursor[cut + 1..], Decimal.MAX_UINT64)
      case None => Err(CursorInvalid)
      case Some(v) =>
        if cursor[cut + 1..] != Decimal.Format(v) then Err(CursorInvalid)
        else if cursor[..cut] != c.instance then Err(ServerRestarted)
        else if v > Version(c) then Err(CursorInvalid)
        else if v < Version(c) && (c.journal == [] || v + 1 < c.journal[0].version) then Err(CursorExpired)
        else Ok(v)
  }

  function After(journal: seq<Change>, v: nat): seq<Change> {
    if journal == [] then []
    else (if journal[0].version > v then [journal[0]] else []) + After(journal[1..], v)
  }

  function CursorVersion(cursor: string): nat {
    var cut := IndexOf(cursor, ':');
    if cut == |cursor| then 0
    else match Decimal.ParseUint(cursor[cut + 1..], Decimal.MAX_UINT64) case None => 0 case Some(v) => v
  }

  function Resync(c: Core, cursor: string, reason: ResyncReason): Change {
    var expired := reason == CursorExpired;
    ResyncRequired(Version(c), StreamCursor(c.instance, Version(c)), reason,
                   if expired then CursorVersion(cursor) + 1 else 0, if expired then Version(c) else 0)
  }

  /** What a new subscriber's channel holds when SubscribeChanges returns. */
  function Opening(c: Core, cursor: string): seq<Change> {
    match Requested(c, cursor)
    case Ok(v) => After(c.journal, v)
    case Err(reason) => [Resync(c, cursor, reason)]
  }

  // ---------- the journal ----------

  /** The journal is a contiguous run of published versions that ends at the audit length. */
  ghost predicate JournalOk(c: Core) {
    && |c.journal| <= BUFFER && |c.journal| <= Version(c)
    && forall i :: 0 <= i < |c.journal| ==>
         c.journal[i].Published? && c.journal[i].version == Version(c) - |c.journal| + 1 + i
  }

  /** The journal still reaches back to the version after v. */
  predicate Covered(c: Core, v: nat) {
    v == Version(c) || (v < Version(c) && c.journal != [] && c.journal[0].version <= v + 1)
  }

  lemma CommitKeepsJournal(c: Core, actor: Id, id: Id, op: Operation, next: Store)
    requires JournalOk(c) && next.audit == c.store.audit
    ensures JournalOk(Commit(c, actor, id, op, next))
    ensures Version(Commit(c, actor, id, op, next)) == Version(c) + 1
    ensures |Commit(c, actor, id, op, next).journal| == if |c.journal| < 128 then |c.journal| + 1 else 128
  {
  }

  lemma {:induction false} AfterIsSuffix(j: seq<Change>, first: nat, v: nat)
    requires forall i :: 0 <= i < |j| ==> j[i].version == first + i
    ensures After(j, v) == if v < first then j else if v - first + 1 <= |j| then j[v - first + 1..] else []
  {
    if j != [] {
      AfterIsSuffix(j[1..], first + 1, v);
      if v < first {
        assert [j[0]] + j[1..] == j;
      }
    }
  }

  lemma CoveredSuffix(c: Core, v: nat)
    requires JournalOk(c) && Covered(c, v)
    ensures After(c.journal, v) == c.journal[|c.journal| - (Version(c) - v)..]
  {
    if c.journal != [] {
      AfterIsSuffix(c.journal, Version(c) - |c.journal| + 1, v);
    }
  }

  lemma CursorText(instance: string, v: nat)
    requires ':' !in instance
    ensures IndexOf(StreamCursor(instance, v), ':') == |instance|
    ensures StreamCursor(instance, v)[..|instance|] == instance
    ensures StreamCursor(instance, v)[|instance| + 1..] == Decimal.Format(v)
  {
    var t := StreamCursor(instance, v);
    var i := IndexOf(t, ':');
    assert t[|instance|] == ':';
    assert forall k :: 0 <= k < |instance| ==> t[k] == instance[k] && instance[k] in instance;
    assert forall k :: 0 <= k < i ==> t[k] in t[..i];
  }

  /** The replay boundary. A cursor is replayed exactly when it is this instance's text for a
      version the journal still reaches back to; the channel then holds every later version once,
      in order. Every other cursor gets one resync event. Either way the channel has room. */
  lemma ReplayBoundary(c: Core, cursor: string)
    requires JournalOk(c) && ':' !in c.instance && Version(c) <= Decimal.MAX_UINT64
    ensures |Opening(c, cursor)| <= BUFFER
    ensures Requested(c, cursor).Err? ==>
              |Opening(c, cursor)| == 1 && Opening(c, cursor)[0].ResyncRequired?
    ensures forall v: nat :: Requested(c, cursor) == Ok(v) <==>
              cursor == StreamCursor(c.instance, v) && Covered(c, v)
    ensures Requested(c, cursor).Ok? ==> (
              var v := Requested(c, cursor).value;
              && v <= Version(c) && |Opening(c, cursor)| == Version(c) - v
              && forall i :: 0 <= i < Version(c) - v ==>
                   Opening(c, cursor)[i].Published? && Opening(c, cursor)[i].version == v + 1 + i)
  {
    var cut := IndexOf(cursor, ':');
    if Requested(c, cursor).Ok? {
      var v := Requested(c, cursor).value;
      CoveredSuffix(c, v);
      assert cursor == cursor[..cut] + ":" + cursor[cut + 1..];
      assert cursor == StreamCursor(c.instance, v);
      forall w: nat | cursor == StreamCursor(c.instance, w) ensures w == v {
        CursorText(c.instance, w);
        CursorText(c.instance, v);
        Decimal.FormatInjective(v, w);
      }
    }
    forall v: nat | cursor == StreamCursor(c.instance, v) && Covered(c, v) ensures Requested(c, cursor) == Ok(v) {
      CursorText(c.instance, v);
      Decimal.FormatRoundTrip(v, Decimal.MAX_UINT64);
    }
  }

  /** A cursor of some other run of the server. */
  ghost predicate Foreign(instance: string, cursor: string) {
    exists other: string, v: nat ::
      ':' !in other && other != instance && v <= Decimal.MAX_UINT64 && cursor == StreamCursor(other, v)
  }

  /** A cursor of this run for a version whose successor has left the journal. */
  ghost predicate Outrun(c: Core, cursor: string) {
    exists v: nat :: v < Version(c) && !Covered(c, v) && cursor == StreamCursor(c.instance, v)
  }

  lemma ForeignMeaning(c: Core, cursor: string)
    ensures Requested(c, cursor) == Err(ServerRestarted) <==> Foreign(c.instance, cursor)
  {
    hide Decimal.Format;
    var cut := IndexOf(cursor, ':');
    if Requested(c, cursor) == Err(ServerRestarted) {
      var v := Decimal.ParseUint(cursor[cut + 1..], Decimal.MAX_UINT64).value;
      assert cursor == cursor[..cut] + ":" + cursor[cut + 1..];
      assert cursor == StreamCursor(cursor[..cut], v);
    }
    if Foreign(c.instance, cursor) {
      var other: string, v: nat :|
        ':' !in other && other != c.instance && v <= Decimal.MAX_UINT64 && cursor == StreamCursor(other, v);
      CursorText(other, v);
      Decimal.FormatRoundTrip(v, Decimal.MAX_UINT64);
    }
  }

  lemma OutrunMeaning(c: Core, cursor: string)
    requires ':' !in c.instance && Version(c) <= Decimal.MAX_UINT64
    ensures Requested(c, cursor) == Err(CursorExpired) <==> Outrun(c, cursor)
    ensures Outrun(c, cursor) ==> cursor == StreamCursor(c.instance, CursorVersion(cursor))
  {
    hide Decimal.Format;
    var cut := IndexOf(cursor, ':');
    if Requested(c, cursor) == Err(CursorExpired) {
      var v := Decimal.ParseUint(cursor[cut + 1..], Decimal.MAX_UINT64).value;
      assert cursor == cursor[..cut] + ":" + cursor[cut + 1..];
      assert cursor == StreamCursor(c.instance, v);
    }
    if Outrun(c, cursor) {
      var v: nat :| v < Version(c) && !Covered(c, v) && cursor == StreamCursor(c.instance, v);
      CursorText(c.instance, v);
      Decimal.FormatRoundTrip(v, Decimal.MAX_UINT64);
    }
  }

  /** The event a subscriber gets when its cursor cannot be replayed gives the present version, and the reason: no
      cursor, a cursor of another run, an outrun one, or otherwise an invalid one. An outrun cursor is also told which
      versions it misses: those after its own. */
  lemma ResyncMeaning(c: Core, cursor: string)
    requires ':' !in c.instance && Version(c) <= Decimal.MAX_UINT64 && Requested(c, cursor).Err?
    ensures var e := Opening(c, cursor)[0];
            && Opening(c, cursor) == [e] && e.ResyncRequired?
            && e.version == Version(c) && e.cursor == StreamCursor(c.instance, Version(c))
            && (e.reason.InitialSnapshotRequired? <==> cursor == "")
            && (e.reason.ServerRestarted? <==> Foreign(c.instance, cursor))
            && (e.reason.CursorExpired? <==> Outrun(c, cursor))
            && (e.reason.CursorExpired? ==>
                  e.missingFrom >= 1 && cursor == StreamCursor(c.instance, e.missingFrom - 1) &&
                  e.missingTo == Version(c))
  {
    hide Foreign, Outrun, StreamCursor, CursorVersion;
    ForeignMeaning(c, cursor);
    OutrunMeaning(c, cursor);
    hide Decimal.ParseUint, Decimal.Format;
  }

  // ---------- snapshot plus replay ----------

  function Apply(jobs: map<Id, JobView>, e: Change): map<Id, JobView> {
    if e.Published? && e.job.Some? then jobs[e.job.value.job.id := e.job.value] else jobs
  }

  /** What a client knows after folding events over its snapshot. */
  function ApplyAll(jobs: map<Id, JobView>, es: seq<Change>): map<Id, JobView> {
    if es == [] then jobs else Apply(ApplyAll(jobs, es[..|es| - 1]), es[|es| - 1])
  }

  function Views(jobs: map<Id, Job>): map<Id, JobView> { map id | id in jobs :: Detach(jobs[id]) }

  /** A commit that names `id` changes no other job. */
  ghost predicate Names(old_: map<Id, Job>, new_: map<Id, Job>, id: Id) {
    && (id in new_ ==> new_[id].id == id && new_ == old_[id := new_[id]])
    && (id !in new_ ==> new_ == old_)
  }

  lemma NamedChange(c: Core, actor: Id, id: Id, op: Operation, next: Store)
    requires Names(c.store.jobs, next.jobs, id)
    ensures var c' := Commit(c, actor, id, op, next);
            Views(c'.store.jobs) == Apply(Views(c.store.jobs), Event(c.instance, c'.store, id))
  {
  }

  /** A client that holds `base`, the jobs at version v, reaches the present by replaying the journal. */
  ghost predicate Follows(c: Core, v: nat, base: map<Id, JobView>) {
    && v <= Version(c)
    && (Covered(c, v) ==> ApplyAll(base, After(c.journal, v)) == Views(c.store.jobs))
  }

  lemma FollowsStart(c: Core)
    requires JournalOk(c)
    ensures Follows(c, Version(c), Views(c.store.jobs))
  {
    CoveredSuffix(c, Version(c));
  }

  lemma FollowsCommit(c: Core, v: nat, base: map<Id, JobView>, actor: Id, id: Id, op: Operation, next: Store)
    requires JournalOk(c) && Follows(c, v, base)
    requires next.audit == c.store.audit && Names(c.store.jobs, next.jobs, id)
    ensures Follows(Commit(c, actor, id, op, next), v, base)
  {
    hide Commit, Covered, After, ApplyAll, Views, Names, JournalOk, Event, Apply;
    var c' := Commit(c, actor, id, op, next);
    CommitKeepsJournal(c, actor, id, op, next);
    if Covered(c', v) {
      var e := Event(c.instance, c'.store, id);
      AfterCommit(c, v, actor, id, op, next);
      ApplySnoc(base, After(c.journal, v), e);
      NamedChange(c, actor, id, op, next);
    }
  }

  lemma AfterCommit(c: Core, v: nat, actor: Id, id: Id, op: Operation, next: Store)
    requires JournalOk(c) && v <= Version(c) && next.audit == c.store.audit &&
             Covered(Commit(c, actor, id, op, next), v)
    ensures Covered(c, v)
    ensures var c' := Commit(c, actor, id, op, next);
            After(c'.journal, v) == After(c.journal, v) + [Event(c.instance, c'.store, id)]
  {
    hide After, Event;
    var c' := Commit(c, actor, id, op, next);
    CommitKeepsJournal(c, actor, id, op, next);
    CoveredSuffix(c', v);
    CoveredSuffix(c, v);
  }

  lemma ApplySnoc(base: map<Id, JobView>, es: seq<Change>, e: Change)
    ensures ApplyAll(base, es + [e]) == Apply(ApplyAll(base, es), e)
  {
    assert (es + [e])[..|es|] == es;
  }

  /** A subscriber that has taken `taken` from its channel: if it has as many events as there were versions since
      v, they are those versions in order and lead from `base` to the present. */
  ghost predicate Delivered(c: Core, sub: nat, taken: seq<Change>, v: nat, base: map<Id, JobView>) {
    && sub in c.subs && |taken| + |c.subs[sub]| <= Version(c) - v
    && (Complete(c, sub, taken, v) ==>
          && (forall i :: 0 <= i < Version(c) - v ==> (taken + c.subs[sub])[i].version == v + 1 + i)
          && ApplyAll(base, taken + c.subs[sub]) == Views(c.store.jobs))
  }

  /** Nothing offered to this subscriber since v was lost. */
  predicate Complete(c: Core, sub: nat, taken: seq<Change>, v: nat) {
    sub in c.subs && |taken| + |c.subs[sub]| == Version(c) - v
  }

  /** From c to d a channel gained every version: nothing was dropped anywhere, or it had room for all of them. */
  predicate Gains(c: Core, d: Core, sub: nat) {
    && c.dropped <= d.dropped && Version(c) <= Version(d)
    && (sub in c.subs ==>
          && sub in d.subs
          && (d.dropped == c.dropped || |c.subs[sub]| + Version(d) - Version(c) <= BUFFER ==>
                |d.subs[sub]| == |c.subs[sub]| + Version(d) - Version(c)))
  }

  lemma DeliveredCommit(c: Core, sub: nat, taken: seq<Change>, v: nat, base: map<Id, JobView>,
                        actor: Id, id: Id, op: Operation, next: Store)
    requires Delivered(c, sub, taken, v, base)
    requires next.audit == c.store.audit && Names(c.store.jobs, next.jobs, id)
    ensures Delivered(Commit(c, actor, id, op, next), sub, taken, v, base)
  {
    hide ApplyAll, Views, Names, Apply;
    var c' := Commit(c, actor, id, op, next);
    if Complete(c', sub, taken, v) {
      var e := Event(c.instance, c'.store, id);
      var all := taken + c.subs[sub];
      assert c'.subs[sub] == c.subs[sub] + [e];
      assert taken + c'.subs[sub] == all + [e];
      ApplySnoc(base, all, e);
      NamedChange(c, actor, id, op, next);
    }
  }

  /** A channel with room gets the commit's event, and a commit that drops nothing finds room everywhere. */
  lemma CommitGains(c: Core, actor: Id, id: Id, op: Operation, next: Store, sub: nat)
    requires next.audit == c.store.audit
    ensures Gains(c, Commit(c, actor, id, op, next), sub)
  {
    var d := Commit(c, actor, id, op, next);
    if d.dropped == c.dropped && sub in c.subs {
      assert Full(c.subs) == {};
      assert sub !in Full(c.subs);
    }
  }
}
