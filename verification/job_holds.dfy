/** Which recorded jobs stand in the way of a new one's claims. */
module JobHolds {
  import opened Common
  import opened Claims
  import opened JobModel

  function ClaimsOf(s: Store, j: Job): seq<Claim> {
    if j.plan in s.plans then s.plans[j.plan].prepared.claims else []
  }

  predicate VerifiedCleanup(j: Job) { Terminal(j.state) && j.disposition == Cleaned && j.unresolved == [] }

  /** The position of the first acceptance of a job in the audit. */
  function AcceptedAt(audit: seq<Entry>, id: Id): (r: Option<nat>)
    ensures r.Some? ==> r.value < |audit| && audit[r.value].operation == JobAccepted && audit[r.value].job == id
    ensures r.Some? ==> forall i :: 0 <= i < r.value ==> !(audit[i].operation == JobAccepted && audit[i].job == id)
    ensures r.None? ==> forall i :: 0 <= i < |audit| ==> !(audit[i].operation == JobAccepted && audit[i].job == id)
  {
    if audit == [] then None
    else if audit[0].operation == JobAccepted && audit[0].job == id then Some(0)
    else
      match AcceptedAt(audit[1..], id)
      case None => None
      case Some(i) => Some(i + 1)
  }

  predicate CleanupCovers(held: Claim, released: Claim) {
    && held.host == released.host
    && (if held.dataPath != "" then released.dataPath != "" && Clean(held.dataPath) == Clean(released.dataPath)
        else held.ports != [] && forall p :: p in held.ports ==> p in released.ports)
  }

  /** A later job of the same workspace removed exactly this resource and proved it. */
  predicate ClaimCleaned(s: Store, owner: Job, held: Claim) {
    var o := AcceptedAt(s.audit, owner.id);
    o.Some? && exists id :: id in s.jobs && CleanedBy(s, o.value, owner, held, s.jobs[id])
  }

  predicate CleanedBy(s: Store, order: nat, owner: Job, held: Claim, cleanup: Job) {
    var at := AcceptedAt(s.audit, cleanup.id);
    && at.Some? && at.value > order && cleanup.workspace == owner.workspace && VerifiedCleanup(cleanup)
    && exists r :: r in ClaimsOf(s, cleanup) && CleanupCovers(held, r)
  }

  /** A finished launch holds whatever its network still records as running. */
  predicate StillLaunched(names: set<string>, held: Claim, claims: seq<Claim>) {
    exists r :: r in claims && r.host == held.host && r.executable != "" && (r.executable in names || "*" in names)
  }

  predicate ClaimBlocks(s: Store, names: set<string>, j: Job, held: Claim, claims: seq<Claim>) {
    if Terminal(j.state) && ClaimCleaned(s, j, held) then false
    else if Terminal(j.state) && held.executable != "" then StillLaunched(names, held, claims)
    else exists r :: r in claims && Overlap(r, held)
  }

  /** `launched` is what each network's chain record names as running. */
  predicate Blocks(s: Store, launched: map<Id, set<string>>, j: Job, workspace: Id, claims: seq<Claim>) {
    && !(Terminal(j.state) && (j.workspace == workspace || VerifiedCleanup(j)))
    && exists h :: h in ClaimsOf(s, j)
         && ClaimBlocks(s, if j.workspace in launched then launched[j.workspace] else {}, j, h, claims)
  }

  /** The inner search: does any requested claim meet this held one? */
  method HeldClaimBlocks(s: Store, names: set<string>, job: Job, held: Claim, claims: seq<Claim>) returns (hit: bool)
    ensures hit == ClaimBlocks(s, names, job, held, claims)
  {
    if Terminal(job.state) && ClaimCleaned(s, job, held) { return false; }
    if Terminal(job.state) && held.executable != "" {
      for r := 0 to |claims|
        invariant forall k :: 0 <= k < r ==>
                    !(claims[k].host == held.host && claims[k].executable != "" &&
                        (claims[k].executable in names || "*" in names))
      {
        if claims[r].host == held.host && claims[r].executable != "" &&
            (claims[r].executable in names || "*" in names) {
          assert claims[r] in claims;
          return true;
        }
      }
      return false;
    }
    for r := 0 to |claims|
      invariant forall k :: 0 <= k < r ==> !Overlap(claims[k], held)
    {
      var overlap := ClaimsOverlap(claims[r], held);
      if overlap {
        assert claims[r] in claims;
        return true;
      }
    }
    return false;
  }

  /** resourceConflicts: every holder in the way, found by scanning all jobs and their claims. */
  method ResourceConflicts(s: Store, launched: map<Id, set<string>>, workspace: Id, claims: seq<Claim>)
    returns (holders: set<Id>)
    ensures forall id :: id in holders <==> id in s.jobs && Blocks(s, launched, s.jobs[id], workspace, claims)
  {
    holders := {};
    var left := s.jobs.Keys;
    while left != {}
      invariant left <= s.jobs.Keys
      invariant forall id :: id in holders <==>
                  id in s.jobs.Keys - left && Blocks(s, launched, s.jobs[id], workspace, claims)
      decreases |left|
    {
      var id :| id in left;
      left := left - {id};
      var blocks := JobBlocks(s, launched, s.jobs[id], workspace, claims);
      if blocks { holders := holders + {id}; }
    }
  }

  method JobBlocks(s: Store, launched: map<Id, set<string>>, job: Job, workspace: Id, claims: seq<Claim>)
    returns (found: bool)
    ensures found == Blocks(s, launched, job, workspace, claims)
  {
    if Terminal(job.state) && (job.workspace == workspace || VerifiedCleanup(job)) { return false; }
    var names := if job.workspace in launched then launched[job.workspace] else {};
    var held := ClaimsOf(s, job);
    for i := 0 to |held|
      invariant forall k :: 0 <= k < i ==> !ClaimBlocks(s, names, job, held[k], claims)
    {
      var hit := HeldClaimBlocks(s, names, job, held[i], claims);
      if hit {
        assert held[i] in held;
        return true;
      }
    }
    return false;
  }

  /** Assuming nothing about finished jobs, a live holder of an overlapping claim is always reported. */
  lemma LiveHolderBlocks(s: Store, launched: map<Id, set<string>>, j: Job, workspace: Id, claims: seq<Claim>,
                         held: Claim, r: Claim)
    requires !Terminal(j.state) && held in ClaimsOf(s, j) && r in claims && Overlap(r, held)
    ensures Blocks(s, launched, j, workspace, claims)
  {
    assert ClaimBlocks(s, if j.workspace in launched then launched[j.workspace] else {}, j, held, claims);
  }
}
