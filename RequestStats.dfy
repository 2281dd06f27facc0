/** The request overview of pages/EntrepreneurDashboard.tsx: the requests
    addressed to the signed-in entrepreneur, their counts by status, the
    acceptance rate, the status badge colours and the requester lookup. */
module RequestStats {
  import opened Wrappers
  import opened Types
  import Seqs
  import Identity
  import MockData

  /** `userRequests`: the requests whose `entrepreneurId` is the signed-in
      user's id, in ledger order. Nobody signed in matches nothing, because
      `user?.id` is then `undefined`. */
  function UserRequests(reqs: seq<CollaborationRequest>, user: Option<User>)
    : (r: seq<CollaborationRequest>)
    ensures Seqs.SubsequenceOf(r, reqs)
    ensures forall q :: q in r <==> q in reqs && user.Some? && q.entrepreneurId == user.value.id
    ensures forall q :: multiset(r)[q] == (if user.Some? && q.entrepreneurId == user.value.id then multiset(reqs)[q] else 0)
  {
    Seqs.Filter(reqs, (q: CollaborationRequest) => user.Some? && q.entrepreneurId == user.value.id)
  }

  /** The statuses of a ledger, in order. */
  ghost function Statuses(reqs: seq<CollaborationRequest>): seq<RequestStatus> {
    seq(|reqs|, j requires 0 <= j < |reqs| => reqs[j].status)
  }

  /** `userRequests.filter(r => r.status === status).length`: how many times
      the status occurs among the ledger's statuses. */
  function CountWithStatus(reqs: seq<CollaborationRequest>, status: RequestStatus): (n: nat)
    ensures n <= |reqs|
    ensures n == multiset(Statuses(reqs))[status]
  {
    var hasStatus := (q: CollaborationRequest) => q.status == status;
    FilterCountsStatus(reqs, status, hasStatus);
    |Seqs.Filter(reqs, hasStatus)|
  }

  lemma StatusesCons(reqs: seq<CollaborationRequest>)
    requires reqs != []
    ensures Statuses(reqs) == [reqs[0].status] + Statuses(reqs[1..])
  {
  }

  /** Selecting by status keeps one request per occurrence of the status. */
  lemma {:induction false} FilterCountsStatus(reqs: seq<CollaborationRequest>, status: RequestStatus,
                                              hasStatus: CollaborationRequest -> bool)
    requires forall q :: hasStatus(q) == (q.status == status)
    ensures |Seqs.Filter(reqs, hasStatus)| == multiset(Statuses(reqs))[status]
  {
    if reqs != [] {
      StatusesCons(reqs);
      FilterCountsStatus(reqs[1..], status, hasStatus);
    }
  }

  datatype Stats = Stats(totalRequests: nat, pending: nat, accepted: nat, rejected: nat)

  /** `stats`: every request has exactly one of the three statuses, so the
      three counts add up to the total. */
  function ComputeStats(reqs: seq<CollaborationRequest>): (st: Stats)
    ensures st.totalRequests == |reqs|
    ensures st.pending + st.accepted + st.rejected == st.totalRequests
    ensures st.accepted <= st.totalRequests
  {
    StatusCountsPartition(reqs);
    Stats(|reqs|, CountWithStatus(reqs, Pending), CountWithStatus(reqs, Accepted),
          CountWithStatus(reqs, Rejected))
  }

  lemma {:induction false} StatusCountsPartition(reqs: seq<CollaborationRequest>)
    ensures CountWithStatus(reqs, Pending) + CountWithStatus(reqs, Accepted)
            + CountWithStatus(reqs, Rejected) == |reqs|
  {
    if reqs != [] {
      StatusCountsPartition(reqs[1..]);
    }
  }

  /** The acceptance rate shown on the analytics tab, as a whole percentage:
      `Math.round(accepted / total * 100)` when there are requests, and 0
      otherwise. The result is 100·accepted/total rounded half up. */
  function AcceptanceRate(st: Stats): (pct: nat)
    ensures st.totalRequests == 0 ==> pct == 0
    ensures st.totalRequests > 0 ==>
      2 * st.totalRequests * pct <= 200 * st.accepted + st.totalRequests
      < 2 * st.totalRequests * (pct + 1)
  {
    if st.totalRequests > 0 then
      (200 * st.accepted + st.totalRequests) / (2 * st.totalRequests)
    else 0
  }

  /** A rate is never above 100%. */
  lemma AcceptanceRateAtMostHundred(st: Stats)
    requires st.accepted <= st.totalRequests
    ensures AcceptanceRate(st) <= 100
  {
    if st.totalRequests > 0 {
      var t := st.totalRequests;
      var pct := AcceptanceRate(st);
      assert 2 * t * pct < 2 * t * 101;
      ProductCancel(2 * t, pct, 101);
    }
  }

  lemma ProductCancel(k: nat, a: nat, b: nat)
    requires k > 0 && k * a < k * b
    ensures a < b
  {
    assert k * (b - a) > 0;
  }

  /** One accepted request out of three shows 33%, none shows 0%. */
  lemma AcceptanceRateExamples()
    ensures AcceptanceRate(Stats(3, 1, 1, 1)) == 33
    ensures AcceptanceRate(Stats(0, 0, 0, 0)) == 0
    ensures AcceptanceRate(Stats(2, 1, 1, 0)) == 50
  {
  }

  /** The empty-state panel is shown exactly when no request is addressed to
      the signed-in user. */
  predicate ShowsEmptyState(reqs: seq<CollaborationRequest>, user: Option<User>) {
    |UserRequests(reqs, user)| == 0
  }

  /** A user no request is addressed to (a newly registered entrepreneur, for
      one) sees the empty state and all-zero statistics. */
  lemma UnaddressedUserSeesEmptyState(reqs: seq<CollaborationRequest>, u: User)
    requires forall j :: 0 <= j < |reqs| ==> reqs[j].entrepreneurId != u.id
    ensures ShowsEmptyState(reqs, Some(u))
    ensures ComputeStats(UserRequests(reqs, Some(u))) == Stats(0, 0, 0, 0)
    ensures AcceptanceRate(ComputeStats(UserRequests(reqs, Some(u)))) == 0
  {
    Seqs.FilterNone(reqs, (q: CollaborationRequest) => Some(u).Some? && q.entrepreneurId == u.id);
  }

  /** The selection is made request by request: a ledger split in two is
      selected part by part, and the parts stay in ledger order. */
  lemma UserRequestsConcat(a: seq<CollaborationRequest>, b: seq<CollaborationRequest>, user: Option<User>)
    ensures UserRequests(a + b, user) == UserRequests(a, user) + UserRequests(b, user)
  {
    Seqs.FilterConcat(a, b, (q: CollaborationRequest) => user.Some? && q.entrepreneurId == user.value.id);
  }

  /** A one-request ledger is kept exactly when the request is addressed to
      the user. */
  lemma UserRequestsOne(q: CollaborationRequest, user: Option<User>)
    ensures UserRequests([q], user) == if user.Some? && q.entrepreneurId == user.value.id then [q] else []
  {
    assert [q][1..] == [];
  }

  /** A three-request ledger, selected one request at a time. */
  lemma UserRequestsOfThree(a: CollaborationRequest, b: CollaborationRequest, c: CollaborationRequest,
                            user: Option<User>)
    ensures UserRequests([a, b, c], user)
         == UserRequests([a], user) + UserRequests([b], user) + UserRequests([c], user)
  {
    assert [a, b, c] == [a] + [b] + [c];
    UserRequestsConcat([a] + [b], [c], user);
    UserRequestsConcat([a], [b], user);
  }

  /** Michael Chen's dashboard lists the one request addressed to him. */
  lemma FixtureEntrepreneurRequests()
    ensures UserRequests(MockData.MockCollaborationRequests, Some(MockData.MichaelChen))
         == [MockData.Request1]
  {
    var r1, r2, r3 := MockData.Request1, MockData.Request2, MockData.Request3;
    var user := Some(MockData.MichaelChen);
    UserRequestsOfThree(r1, r2, r3, user);
    UserRequestsOne(r1, user);
    UserRequestsOne(r2, user);
    UserRequestsOne(r3, user);
  }

  /** David Park's one request has been accepted: one request in total, one
      accepted, and an acceptance rate of 100%. */
  lemma FixtureAcceptedRequestStats()
    ensures ComputeStats(UserRequests(MockData.MockCollaborationRequests, Some(MockData.DavidPark)))
         == Stats(1, 0, 1, 0)
    ensures AcceptanceRate(Stats(1, 0, 1, 0)) == 100
  {
    var r1, r2, r3 := MockData.Request1, MockData.Request2, MockData.Request3;
    var user := Some(MockData.DavidPark);
    UserRequestsOfThree(r1, r2, r3, user);
    UserRequestsOne(r1, user);
    UserRequestsOne(r2, user);
    UserRequestsOne(r3, user);
    SingleRequestStats(r2);
  }

  /** One request counts once, under its own status. */
  lemma SingleRequestStats(q: CollaborationRequest)
    ensures ComputeStats([q]) == Stats(1, if q.status == Pending then 1 else 0,
                                          if q.status == Accepted then 1 else 0,
                                          if q.status == Rejected then 1 else 0)
  {
    assert Statuses([q]) == [q.status];
  }

  /** `getStatusColor`; the `default` branch is unreachable for a status. */
  function StatusColor(s: RequestStatus): string {
    match s
    case Pending => "text-yellow-600 bg-yellow-100"
    case Accepted => "text-green-600 bg-green-100"
    case Rejected => "text-red-600 bg-red-100"
  }

  /** Each status has its own colour. */
  lemma StatusColorsDistinct(a: RequestStatus, b: RequestStatus)
    ensures StatusColor(a) == StatusColor(b) <==> a == b
  {
  }

  /** `getInvestorById`: searches every user by id, with no role check. */
  function RequesterOf(users: seq<User>, q: CollaborationRequest): (r: Option<User>)
    ensures r.Some? ==> r.value in users && r.value.id == q.investorId
    ensures r.Some? ==> exists k :: Identity.FirstWithId(users, q.investorId, k) && users[k] == r.value
    ensures r.None? <==> forall j :: 0 <= j < |users| ==> users[j].id != q.investorId
  {
    Identity.FindById(users, q.investorId)
  }
}
