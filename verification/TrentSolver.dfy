/** Trent's decisions about one contract (`TrentSolver`): resolved, aborted, or somebody was dishonest. */
module TrentSolver {
  import opened Wrappers
  import opened Sigma
  import opened SigmaSigner
  import opened Trent

  type Id = string

  /** The decrypted request of a party: the word ABORT, or the row of a round. */
  datatype Request = Abort | Promises(row: Row)

  type Claims = map<Id, Request>

  datatype State = State(optimistic: bool, claims: seq<Claims>, dishonest: map<Id, (Request, Request)>)

  datatype Answer =
    | Resolved(signatures: seq<Signature>)
    | Aborted(claims: seq<Claims>, dishonest: map<Id, (Request, Request)>)
    | HonestyToken(claims: seq<Claims>, dishonest: map<Id, (Request, Request)>)
    | SenderDishonest

  const FRESH := State(true, [], map[])

  /**
   * One call: a request for a round by a sender. `pick` is the key of a stored map that the iteration reaches first
   * among those whose string object is not the sender's, if there is one.
   */
  datatype Call = Call(request: Request, round: int, sender: Id, pick: Claims -> Option<Id>, draws: Draws)

  function Other(call: Call, claims: Claims): Option<Id> {
    match call.pick(claims)
    case Some(id) => if id in claims then Some(id) else None
    case None => None
  }

  /** How a loop of `resolveT` ends: it runs out, throws, or returns from the method. */
  datatype Early = Continue | Throws | Returns(state: State, answer: Answer)

  /** What a loop that ends like this leaves behind: the state, and whether the method is done and with what. */
  ghost predicate Ended(e: Early, before: State, after: State, done: bool, answer: Option<Answer>) {
    match e
    case Continue => !done && after == before
    case Throws => done && answer == None && after == before
    case Returns(s, a) => done && answer == Some(a) && after == s
  }

  /** Somebody who stopped in an earlier round has gone on to this one. */
  function EarlierRounds(s: State, call: Call, k: nat): Early
    decreases call.round - k
  {
    if k + 1 >= call.round then Continue
    else if k >= |s.claims| then Throws
    else match Other(call, s.claims[k])
      case Some(id) =>
        var s' := State(s.optimistic, s.claims[k := s.claims[k] - {id}],
                        s.dishonest[id := (s.claims[k][id], call.request)]);
        Returns(s', HonestyToken(s'.claims, s'.dishonest))
      case None => EarlierRounds(s, call, k + 1)
  }

  /** `indexOf`: the first stored map equal to this one. */
  function FirstEqual(claims: seq<Claims>, c: Claims): (k: nat)
    requires c in claims
    ensures k < |claims| && claims[k] == c
    ensures forall j :: 0 <= j < k ==> claims[j] != c
  {
    if claims[0] == c then 0 else 1 + FirstEqual(claims[1..], c)
  }

  /** The sender itself claimed another round before. */
  function OwnClaims(s: State, call: Call, i: nat): Early
    decreases |s.claims| - i
  {
    if i >= |s.claims| then Continue
    else
      var claim := s.claims[i];
      var k := FirstEqual(s.claims, claim);
      if call.sender in claim && k != call.round then
        Returns(State(s.optimistic, s.claims[k := s.claims[k] - {call.sender}],
                      s.dishonest[call.sender := (call.request, claim[call.sender])]),
                SenderDishonest)
      else OwnClaims(s, call, i + 1)
  }

  /** Somebody else claimed a later round. */
  function LaterRounds(n: nat, s: State, call: Call, k: int): Early
    decreases n - k
  {
    if k >= n then Continue
    else if k < 0 || k >= |s.claims| then LaterRounds(n, s, call, k + 1)
    else match Other(call, s.claims[k])
      case Some(id) =>
        Returns(State(s.optimistic, s.claims[k := s.claims[k] - {call.sender}],
                      s.dishonest[call.sender := (call.request, s.claims[k][id])]),
                SenderDishonest)
      case None => LaterRounds(n, s, call, k + 1)
  }

  /** The signatures for a request; the word ABORT is no row. */
  function TokenFor(t: KeyPair, n: nat, call: Call): Option<seq<Signature>> {
    match call.request
    case Abort => if n == 0 then Some([]) else None
    case Promises(row) => ResolveToken(t, row, n, call.draws)
  }

  /** The decision when nobody was found dishonest; `optimistic` is cleared before the token is built. */
  function Decide(t: KeyPair, n: nat, s: State, call: Call): (State, Option<Answer>) {
    if (s.claims == [] && call.round > 0) || !s.optimistic then
      var s' := s.(optimistic := false);
      match TokenFor(t, n, call)
      case Some(signatures) => (s', Some(Resolved(signatures)))
      case None => (s', None)
    else if 0 <= call.round <= |s.claims| then
      var s' := s.(claims := s.claims[..call.round] + [map[call.sender := call.request]] + s.claims[call.round..]);
      (s', Some(Aborted(s'.claims, s'.dishonest)))
    else
      (s, None)
  }

  /** `resolveT`: the new state and the answer, `None` when the call throws. */
  function Resolve(t: KeyPair, n: nat, s: State, call: Call): (State, Option<Answer>) {
    match EarlierRounds(s, call, 0)
    case Throws => (s, None)
    case Returns(s', a) => (s', Some(a))
    case Continue =>
      match OwnClaims(s, call, 0)
      case Throws => (s, None)
      case Returns(s', a) => (s', Some(a))
      case Continue =>
        match LaterRounds(n, s, call, call.round + 1)
        case Throws => (s, None)
        case Returns(s', a) => (s', Some(a))
        case Continue => Decide(t, n, s, call)
  }

  class Solver {
    const trent: TrentServer
    const n: nat
    var optimistic: bool
    var possiblyHonestClaims: seq<Claims>
    var dishonestClaims: map<Id, (Request, Request)>

    ghost function Now(): State
      reads this
    {
      State(optimistic, possiblyHonestClaims, dishonestClaims)
    }

    constructor (trent: TrentServer, n: nat)
      ensures this.trent == trent && this.n == n && Now() == FRESH
    {
      this.trent, this.n := trent, n;
      optimistic, possiblyHonestClaims, dishonestClaims := true, [], map[];
    }

    method ShowEarlier(call: Call) returns (done: bool, answer: Option<Answer>)
      modifies this
      ensures Ended(EarlierRounds(old(Now()), call, 0), old(Now()), Now(), done, answer)
    {
      var k := 0;
      while k + 1 < call.round
        invariant 0 <= k && Now() == old(Now())
        invariant EarlierRounds(Now(), call, k) == EarlierRounds(Now(), call, 0)
      {
        if k >= |possiblyHonestClaims| { return true, None; }
        var claims := possiblyHonestClaims[k];
        var other := Other(call, claims);
        if other.Some? {
          dishonestClaims := dishonestClaims[other.value := (claims[other.value], call.request)];
          possiblyHonestClaims := possiblyHonestClaims[k := claims - {other.value}];
          return true, Some(HonestyToken(possiblyHonestClaims, dishonestClaims));
        }
        k := k + 1;
      }
      return false, None;
    }

    method ShowOwn(call: Call) returns (done: bool, answer: Option<Answer>)
      modifies this
      ensures Ended(OwnClaims(old(Now()), call, 0), old(Now()), Now(), done, answer)
    {
      var i := 0;
      while i < |possiblyHonestClaims|
        invariant 0 <= i <= |possiblyHonestClaims| && Now() == old(Now())
        invariant OwnClaims(Now(), call, i) == OwnClaims(Now(), call, 0)
      {
        var claim := possiblyHonestClaims[i];
        var j := FirstEqual(possiblyHonestClaims, claim);
        if call.sender in claim && j != call.round {
          dishonestClaims := dishonestClaims[call.sender := (call.request, claim[call.sender])];
          possiblyHonestClaims := possiblyHonestClaims[j := possiblyHonestClaims[j] - {call.sender}];
          return true, Some(SenderDishonest);
        }
        i := i + 1;
      }
      return false, None;
    }

    method ShowLater(call: Call) returns (done: bool, answer: Option<Answer>)
      modifies this
      ensures Ended(LaterRounds(n, old(Now()), call, call.round + 1), old(Now()), Now(), done, answer)
    {
      var later := call.round + 1;
      while later < n
        invariant Now() == old(Now())
        invariant LaterRounds(n, Now(), call, later) == LaterRounds(n, Now(), call, call.round + 1)
      {
        if 0 <= later < |possiblyHonestClaims| {
          var claims := possiblyHonestClaims[later];
          var other := Other(call, claims);
          if other.Some? {
            dishonestClaims := dishonestClaims[call.sender := (call.request, claims[other.value])];
            possiblyHonestClaims := possiblyHonestClaims[later := claims - {call.sender}];
            return true, Some(SenderDishonest);
          }
        }
        later := later + 1;
      }
      return false, None;
    }

    method ResolveT(call: Call) returns (answer: Option<Answer>)
      modifies this, trent`eph
      ensures (Now(), answer) == Resolve(trent.keys, n, old(Now()), call)
    {
      var done;
      done, answer := ShowEarlier(call);
      if done { return; }
      done, answer := ShowOwn(call);
      if done { return; }
      done, answer := ShowLater(call);
      if done { return; }
      answer := DecideNow(call);
    }

    method DecideNow(call: Call) returns (answer: Option<Answer>)
      modifies this, trent`eph
      ensures (Now(), answer) == Decide(trent.keys, n, old(Now()), call)
    {
      if (possiblyHonestClaims == [] && call.round > 0) || !optimistic {
        optimistic := false;
        if call.request.Abort? {
          return if n == 0 then Some(Resolved([])) else None;
        }
        var token := trent.BuildToken(call.request.row, n, call.draws);
        if token.None? { return None; }
        return Some(Resolved(token.value));
      }
      if !(0 <= call.round <= |possiblyHonestClaims|) { return None; }
      var h := map[call.sender := call.request];
      possiblyHonestClaims :=
        possiblyHonestClaims[..call.round] + [h] + possiblyHonestClaims[call.round..];
      return Some(Aborted(possiblyHonestClaims, dishonestClaims));
    }
  }

  // ----- over all sequences of calls -----

  /** Once the solver stops being optimistic it holds no claims. */
  ghost predicate Inv(s: State) {
    !s.optimistic ==> s.claims == []
  }

  lemma {:induction false} EarlierKeeps(s: State, call: Call, k: nat)
    ensures var e := EarlierRounds(s, call, k);
            e.Returns? ==> e.state.optimistic == s.optimistic && |e.state.claims| == |s.claims| > 0
                           && e.answer.HonestyToken?
    decreases call.round - k
  {
    if k + 1 < call.round && k < |s.claims| { EarlierKeeps(s, call, k + 1); }
  }

  lemma {:induction false} OwnKeeps(s: State, call: Call, i: nat)
    ensures var e := OwnClaims(s, call, i);
            && !e.Throws?
            && (e.Returns? ==> e.state.optimistic == s.optimistic && |e.state.claims| == |s.claims| > 0
                               && e.answer.SenderDishonest?)
    decreases |s.claims| - i
  {
    if i < |s.claims| { OwnKeeps(s, call, i + 1); }
  }

  lemma {:induction false} LaterKeeps(n: nat, s: State, call: Call, k: int)
    ensures var e := LaterRounds(n, s, call, k);
            && !e.Throws?
            && (e.Returns? ==> e.state.optimistic == s.optimistic && |e.state.claims| == |s.claims| > 0
                               && e.answer.SenderDishonest?)
    decreases n - k
  {
    if k < n { LaterKeeps(n, s, call, k + 1); }
  }

  /** What one call keeps, and what each answer says about the state. */
  lemma StepKeeps(t: KeyPair, n: nat, s: State, call: Call)
    requires Inv(s)
    ensures var (s', answer) := Resolve(t, n, s, call);
            && Inv(s')
            && |s'.claims| >= |s.claims|
            && (!s.optimistic ==> !s'.optimistic)
            && (s.claims != [] ==> s'.optimistic == s.optimistic)
            && (answer.Some? && answer.value.Resolved? ==> !s'.optimistic)
            && (answer.Some? && !answer.value.Resolved? ==> s'.claims != [] && s'.optimistic)
            && (answer.Some? && s.claims == [] ==> answer.value.Resolved? || answer.value.Aborted?)
  {
    EarlierKeeps(s, call, 0);
    OwnKeeps(s, call, 0);
    LaterKeeps(n, s, call, call.round + 1);
  }

  /** The state and the answers after a sequence of calls. */
  function Run(t: KeyPair, n: nat, calls: seq<Call>): (State, seq<Option<Answer>>) {
    if calls == [] then (FRESH, [])
    else
      var last := |calls| - 1;
      var (s, answers) := Run(t, n, calls[..last]);
      var (s', answer) := Resolve(t, n, s, calls[last]);
      (s', answers + [answer])
  }

  ghost predicate Says(answers: seq<Option<Answer>>, i: nat, resolved: bool) {
    i < |answers| && answers[i].Some? && answers[i].value.Resolved? == resolved
  }

  /** Resolved answers and other answers leave traces in the state that exclude each other. */
  lemma {:induction false} RunInvariant(t: KeyPair, n: nat, calls: seq<Call>)
    ensures var (s, answers) := Run(t, n, calls);
            && Inv(s) && |answers| == |calls|
            && (forall i: nat :: Says(answers, i, true) ==> !s.optimistic)
            && (forall i: nat :: Says(answers, i, false) ==> s.claims != [] && s.optimistic)
  {
    if calls != [] {
      var last := |calls| - 1;
      RunInvariant(t, n, calls[..last]);
      var (s, answers) := Run(t, n, calls[..last]);
      StepKeeps(t, n, s, calls[last]);
      var (s', all) := Run(t, n, calls);
      forall i: nat, r | Says(all, i, r) ensures if r then !s'.optimistic else s'.claims != [] && s'.optimistic {
        if i < last { assert Says(answers, i, r); }
      }
    }
  }

  /** Resolved is never mixed with any other answer: the first call that returns decides for all later ones. */
  lemma FirstAnswerDecides(t: KeyPair, n: nat, calls: seq<Call>, i: nat, j: nat)
    requires var answers := Run(t, n, calls).1;
             i < |answers| && j < |answers| && answers[i].Some? && answers[j].Some?
    ensures var answers := Run(t, n, calls).1;
            answers[i].value.Resolved? <==> answers[j].value.Resolved?
  {
    RunInvariant(t, n, calls);
    var answers := Run(t, n, calls).1;
    assert Says(answers, i, answers[i].value.Resolved?);
    assert Says(answers, j, answers[j].value.Resolved?);
  }

  /** The first answer of a solver is resolved or aborted. */
  lemma {:induction false} FirstAnswer(t: KeyPair, n: nat, calls: seq<Call>, i: nat)
    requires var answers := Run(t, n, calls).1;
             i < |answers| && answers[i].Some? && forall j :: 0 <= j < i ==> answers[j].None?
    ensures var a := Run(t, n, calls).1[i].value;
            a.Resolved? || a.Aborted?
  {
    var last := |calls| - 1;
    RunInvariant(t, n, calls[..last]);
    var (s, answers) := Run(t, n, calls[..last]);
    var all := Run(t, n, calls).1;
    RunInvariant(t, n, calls);
    forall j | 0 <= j < last ensures all[j] == answers[j] {}
    if i < last {
      FirstAnswer(t, n, calls[..last], i);
    } else {
      SilentRun(t, n, calls[..last]);
      StepKeeps(t, n, s, calls[last]);
    }
  }

  /** Calls that throw store nothing. */
  lemma {:induction false} SilentRun(t: KeyPair, n: nat, calls: seq<Call>)
    requires forall j :: 0 <= j < |calls| ==> j < |Run(t, n, calls).1| && Run(t, n, calls).1[j].None?
    ensures Run(t, n, calls).0.claims == []
  {
    if calls != [] {
      var last := |calls| - 1;
      RunInvariant(t, n, calls[..last]);
      var (s, answers) := Run(t, n, calls[..last]);
      var all := Run(t, n, calls).1;
      forall j | 0 <= j < last ensures j < |answers| && answers[j].None? {
        assert all[j] == answers[j];
      }
      SilentRun(t, n, calls[..last]);
      assert all[last].None?;
    }
  }

  // ----- which rounds are ever resolved -----

  /** On an empty list the first loop throws exactly from round 2 on, and the other two run out. */
  lemma EmptyLoops(n: nat, s: State, call: Call)
    requires s.claims == []
    ensures EarlierRounds(s, call, 0) == if call.round >= 2 then Throws else Continue
    ensures OwnClaims(s, call, 0) == Continue
    ensures LaterRounds(n, s, call, call.round + 1) == Continue
  {
    LaterOnEmpty(n, s, call, call.round + 1);
  }

  lemma {:induction false} LaterOnEmpty(n: nat, s: State, call: Call, k: int)
    requires s.claims == []
    ensures LaterRounds(n, s, call, k) == Continue
    decreases n - k
  {
    if k < n { LaterOnEmpty(n, s, call, k + 1); }
  }

  /**
   * A request is resolved exactly when nothing was stored, its round is at most 1, there is a promise to resolve
   * (or an earlier request was resolved), and the signatures can be built.
   */
  lemma ResolvedExactly(t: KeyPair, n: nat, s: State, call: Call)
    requires Inv(s)
    ensures var answer := Resolve(t, n, s, call).1;
            (answer.Some? && answer.value.Resolved?)
            <==> s.claims == [] && call.round <= 1 && (call.round > 0 || !s.optimistic) && TokenFor(t, n, call).Some?
  {
    if s.claims == [] {
      EmptyLoops(n, s, call);
    } else {
      StepKeeps(t, n, s, call);
    }
  }

  /**
   * The promise of the protocol is that the first claim with promises wins. The code keeps it exactly for claims of
   * round 1: a first claim of any later round makes `resolveT` throw and changes nothing.
   */
  lemma FirstClaim(t: KeyPair, n: nat, call: Call)
    requires call.round > 0 && TokenFor(t, n, call).Some?
    ensures Resolve(t, n, FRESH, call) ==
            if call.round == 1 then (FRESH.(optimistic := false), Some(Resolved(TokenFor(t, n, call).value)))
            else (FRESH, None)
  {
    EmptyLoops(n, FRESH, call);
  }

  /** A first request of round 0 is stored and answered as aborted. */
  lemma FirstAbort(t: KeyPair, n: nat, call: Call)
    requires call.round == 0
    ensures var claims := [map[call.sender := call.request]];
            Resolve(t, n, FRESH, call) == (FRESH.(claims := claims), Some(Aborted(claims, map[])))
  {
    EmptyLoops(n, FRESH, call);
    var h := map[call.sender := call.request];
    assert FRESH.claims[..0] + [h] + FRESH.claims[0..] == [h];
  }

  /** Whatever happened before, a request of round 2 or later is never resolved. */
  lemma LateClaimsNeverResolved(t: KeyPair, n: nat, calls: seq<Call>, call: Call)
    requires call.round >= 2
    ensures var answer := Resolve(t, n, Run(t, n, calls).0, call).1;
            !(answer.Some? && answer.value.Resolved?)
  {
    RunInvariant(t, n, calls);
    ResolvedExactly(t, n, Run(t, n, calls).0, call);
  }

  // ----- which requests are ever aborted -----

  lemma {:induction false} EarlierExactly(s: State, call: Call, k: nat)
    ensures EarlierRounds(s, call, k) == Continue
            <==> (call.round - 1 <= k || call.round - 1 <= |s.claims|)
                 && forall j :: 0 <= j < |s.claims| && k <= j < call.round - 1 ==> Other(call, s.claims[j]).None?
    decreases call.round - k
  {
    if k + 1 < call.round && k < |s.claims| { EarlierExactly(s, call, k + 1); }
  }

  /** The sender has no claim in entry j, or that entry is of the round of the call. */
  ghost predicate OwnRound(s: State, call: Call, j: nat)
    requires j < |s.claims|
  {
    call.sender in s.claims[j] ==> FirstEqual(s.claims, s.claims[j]) == call.round
  }

  lemma {:induction false} OwnExactly(s: State, call: Call, i: nat)
    ensures OwnClaims(s, call, i) == Continue <==> forall j :: i <= j < |s.claims| ==> OwnRound(s, call, j)
    decreases |s.claims| - i
  {
    if i < |s.claims| {
      OwnExactly(s, call, i + 1);
      assert OwnRound(s, call, i) ==> OwnClaims(s, call, i) == OwnClaims(s, call, i + 1);
    }
  }

  lemma {:induction false} LaterExactly(n: nat, s: State, call: Call, k: int)
    ensures LaterRounds(n, s, call, k) == Continue
            <==> forall j :: 0 <= j < |s.claims| && k <= j < n ==> Other(call, s.claims[j]).None?
    decreases n - k
  {
    if k < n { LaterExactly(n, s, call, k + 1); }
  }

  /** Nobody is found dishonest: nobody else in a round before the last or a later one, nor the sender in any other. */
  ghost predicate Unsuspicious(n: nat, s: State, call: Call) {
    && (forall j :: 0 <= j < |s.claims| && (j < call.round - 1 || call.round < j < n) ==>
          Other(call, s.claims[j]).None?)
    && (forall j :: 0 <= j < |s.claims| ==> OwnRound(s, call, j))
  }

  /**
   * A request is answered as aborted exactly when no claim of round 1 has come first, nobody is found dishonest, and
   * its round is at most the number of those stored, of which there must be some unless its round is 0.
   */
  lemma AbortedExactly(t: KeyPair, n: nat, s: State, call: Call)
    ensures var answer := Resolve(t, n, s, call).1;
            (answer.Some? && answer.value.Aborted?)
            <==> s.optimistic && 0 <= call.round <= |s.claims| && Unsuspicious(n, s, call)
  {
    EarlierKeeps(s, call, 0);
    OwnKeeps(s, call, 0);
    LaterKeeps(n, s, call, call.round + 1);
    EarlierExactly(s, call, 0);
    OwnExactly(s, call, 0);
    LaterExactly(n, s, call, call.round + 1);
  }

  /** One call makes the solver give up being optimistic exactly when it is the first one of round 1. */
  lemma OptimisticExactly(t: KeyPair, n: nat, s: State, call: Call)
    requires Inv(s)
    ensures Resolve(t, n, s, call).0.optimistic <==> s.optimistic && !(s.claims == [] && call.round == 1)
  {
    if s.claims == [] {
      EmptyLoops(n, s, call);
    } else {
      StepKeeps(t, n, s, call);
    }
  }

  /** Call k is of round 1 and comes before any request was stored. */
  ghost predicate ComesFirst(t: KeyPair, n: nat, calls: seq<Call>, k: nat) {
    k < |calls| && calls[k].round == 1 && Run(t, n, calls[..k]).0.claims == []
  }

  lemma {:induction false} PessimisticExactly(t: KeyPair, n: nat, calls: seq<Call>)
    ensures !Run(t, n, calls).0.optimistic <==> exists k :: ComesFirst(t, n, calls, k)
  {
    if calls != [] {
      var last := |calls| - 1;
      var before := calls[..last];
      PessimisticExactly(t, n, before);
      RunInvariant(t, n, before);
      OptimisticExactly(t, n, Run(t, n, before).0, calls[last]);
      FirstsKept(t, n, calls);
    }
  }

  lemma FirstsKept(t: KeyPair, n: nat, calls: seq<Call>)
    requires calls != []
    ensures var last := |calls| - 1;
            (exists k :: ComesFirst(t, n, calls, k))
            <==> ComesFirst(t, n, calls, last) || exists k :: ComesFirst(t, n, calls[..last], k)
  {
    var last := |calls| - 1;
    forall k: nat | k < last ensures ComesFirst(t, n, calls, k) <==> ComesFirst(t, n, calls[..last], k) {
      assert calls[..last][..k] == calls[..k];
    }
  }

  /**
   * A claim of round 1 that comes first rules out every answer but resolved, even if its own row is too short and it
   * is not answered itself.
   */
  lemma NoAbortAfterFirst(t: KeyPair, n: nat, calls: seq<Call>, k: nat, i: nat)
    requires ComesFirst(t, n, calls, k) && i < |Run(t, n, calls).1|
    ensures TokenFor(t, n, calls[k]).None? ==> Resolve(t, n, Run(t, n, calls[..k]).0, calls[k]).1.None?
    ensures var answers := Run(t, n, calls).1;
            answers[i].Some? ==> answers[i].value.Resolved?
  {
    RunInvariant(t, n, calls);
    PessimisticExactly(t, n, calls);
    EmptyLoops(n, Run(t, n, calls[..k]).0, calls[k]);
    var answers := Run(t, n, calls).1;
    if answers[i].Some? { assert Says(answers, i, answers[i].value.Resolved?); }
  }
}
