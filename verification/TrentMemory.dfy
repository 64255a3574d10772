/** What Trent's solver remembers of the requests it has answered, and whom it takes for dishonest. */
module TrentMemory {
  import opened Wrappers
  import opened SigmaSigner
  import opened Sigma
  import opened Trent
  import opened TrentSolver

  // ----- who is found dishonest -----

  /** Entry k loses the request of one party, and one party is kept as dishonest with two requests. */
  function Moved(s: State, k: nat, gone: Id, who: Id, requests: (Request, Request)): State
    requires k < |s.claims|
  {
    State(s.optimistic, s.claims[k := s.claims[k] - {gone}], s.dishonest[who := requests])
  }

  /** Entry k, of a round before the last one, is the first from entry `from` on with another party. */
  ghost predicate EarlierAt(s: State, call: Call, from: nat, k: nat, id: Id) {
    && from <= k < |s.claims| && k + 1 < call.round && Other(call, s.claims[k]) == Some(id)
    && forall j :: from <= j < k ==> Other(call, s.claims[j]).None?
  }

  function EarlierExit(s: State, call: Call, k: nat, id: Id): Early
    requires k < |s.claims| && id in s.claims[k]
  {
    var s' := Moved(s, k, id, id, (s.claims[k][id], call.request));
    Returns(s', HonestyToken(s'.claims, s'.dishonest))
  }

  lemma {:induction false} EarlierFinds(s: State, call: Call, from: nat) returns (k: nat, id: Id)
    requires EarlierRounds(s, call, from).Returns?
    ensures EarlierAt(s, call, from, k, id) && EarlierRounds(s, call, from) == EarlierExit(s, call, k, id)
    decreases call.round - from
  {
    var other := Other(call, s.claims[from]);
    if other.Some? {
      k, id := from, other.value;
    } else {
      k, id := EarlierFinds(s, call, from + 1);
    }
  }

  lemma {:induction false} EarlierFound(s: State, call: Call, from: nat, k: nat, id: Id)
    requires EarlierAt(s, call, from, k, id)
    ensures EarlierRounds(s, call, from) == EarlierExit(s, call, k, id)
    decreases k - from
  {
    if from < k { EarlierFound(s, call, from + 1, k, id); }
  }

  /** Entry i is the first from entry `from` on that holds a request of the sender for another round. */
  ghost predicate OwnAt(s: State, call: Call, from: nat, i: nat) {
    from <= i < |s.claims| && !OwnRound(s, call, i) && forall j :: from <= j < i ==> OwnRound(s, call, j)
  }

  function OwnExit(s: State, call: Call, i: nat): Early
    requires i < |s.claims| && call.sender in s.claims[i]
  {
    var k := FirstEqual(s.claims, s.claims[i]);
    Returns(Moved(s, k, call.sender, call.sender, (call.request, s.claims[i][call.sender])), SenderDishonest)
  }

  lemma {:induction false} OwnFinds(s: State, call: Call, from: nat) returns (i: nat)
    requires OwnClaims(s, call, from).Returns?
    ensures OwnAt(s, call, from, i) && OwnClaims(s, call, from) == OwnExit(s, call, i)
    decreases |s.claims| - from
  {
    if OwnRound(s, call, from) {
      i := OwnFinds(s, call, from + 1);
    } else {
      i := from;
    }
  }

  lemma {:induction false} OwnFound(s: State, call: Call, from: nat, i: nat)
    requires OwnAt(s, call, from, i)
    ensures OwnClaims(s, call, from) == OwnExit(s, call, i)
    decreases i - from
  {
    if from < i {
      assert OwnRound(s, call, from);
      OwnFound(s, call, from + 1, i);
    }
  }

  /** Entry k, of a later round, is the first from entry `from` on with another party. */
  ghost predicate LaterAt(n: nat, s: State, call: Call, from: int, k: nat, id: Id) {
    && from <= k < n && k < |s.claims| && Other(call, s.claims[k]) == Some(id)
    && forall j :: from <= j < k && 0 <= j ==> Other(call, s.claims[j]).None?
  }

  function LaterExit(s: State, call: Call, k: nat, id: Id): Early
    requires k < |s.claims| && id in s.claims[k]
  {
    Returns(Moved(s, k, call.sender, call.sender, (call.request, s.claims[k][id])), SenderDishonest)
  }

  lemma {:induction false} LaterFinds(n: nat, s: State, call: Call, from: int) returns (k: nat, id: Id)
    requires LaterRounds(n, s, call, from).Returns?
    ensures LaterAt(n, s, call, from, k, id) && LaterRounds(n, s, call, from) == LaterExit(s, call, k, id)
    decreases n - from
  {
    if 0 <= from < |s.claims| && Other(call, s.claims[from]).Some? {
      k, id := from, Other(call, s.claims[from]).value;
    } else {
      k, id := LaterFinds(n, s, call, from + 1);
    }
  }

  lemma {:induction false} LaterFound(n: nat, s: State, call: Call, from: int, k: nat, id: Id)
    requires LaterAt(n, s, call, from, k, id)
    ensures LaterRounds(n, s, call, from) == LaterExit(s, call, k, id)
    decreases k - from
  {
    if from < k { LaterFound(n, s, call, from + 1, k, id); }
  }

  // ----- what each answer does to the memory -----

  /** The request becomes an entry of its own at the index of its round; the others keep their order. */
  ghost predicate Inserted(s: State, call: Call, s': State) {
    && 0 <= call.round <= |s.claims| && |s'.claims| == |s.claims| + 1
    && s'.claims[call.round] == map[call.sender := call.request]
    && (forall i :: 0 <= i < call.round ==> s'.claims[i] == s.claims[i])
    && (forall i :: call.round <= i < |s.claims| ==> s'.claims[i + 1] == s.claims[i])
    && s'.dishonest == s.dishonest && s'.optimistic == s.optimistic
  }

  ghost predicate ShownEarlier(s: State, call: Call, s': State) {
    exists k: nat, id :: EarlierAt(s, call, 0, k, id) && s' == Moved(s, k, id, id, (s.claims[k][id], call.request))
  }

  ghost predicate ShownOwn(s: State, call: Call, s': State) {
    exists i: nat :: OwnAt(s, call, 0, i) && call.sender in s.claims[i]
      && s' == Moved(s, FirstEqual(s.claims, s.claims[i]), call.sender, call.sender,
                     (call.request, s.claims[i][call.sender]))
  }

  ghost predicate ShownLater(n: nat, s: State, call: Call, s': State) {
    && (forall i :: 0 <= i < |s.claims| ==> OwnRound(s, call, i))
    && exists k: nat, id :: LaterEntry(n, s, call, k, id)
         && s' == Moved(s, k, call.sender, call.sender, (call.request, s.claims[k][id]))
  }

  /** The new state for each kind of answer; answers that tell the memory tell the new one. */
  ghost predicate Effect(n: nat, s: State, call: Call, s': State, answer: Option<Answer>) {
    match answer
    case None => s'.claims == s.claims && s'.dishonest == s.dishonest
    case Some(Resolved(_)) => s'.claims == s.claims && s'.dishonest == s.dishonest
    case Some(Aborted(claims, dishonest)) =>
      Inserted(s, call, s') && claims == s'.claims && dishonest == s'.dishonest
    case Some(HonestyToken(claims, dishonest)) =>
      ShownEarlier(s, call, s') && claims == s'.claims && dishonest == s'.dishonest
    case Some(SenderDishonest) => ShownOwn(s, call, s') || ShownLater(n, s, call, s')
  }

  lemma EarlierEffect(n: nat, s: State, call: Call)
    requires EarlierRounds(s, call, 0).Returns?
    ensures var e := EarlierRounds(s, call, 0);
            Effect(n, s, call, e.state, Some(e.answer))
  {
    var k, id := EarlierFinds(s, call, 0);
    assert EarlierAt(s, call, 0, k, id);
  }

  lemma OwnEffect(n: nat, s: State, call: Call)
    requires OwnClaims(s, call, 0).Returns?
    ensures var e := OwnClaims(s, call, 0);
            Effect(n, s, call, e.state, Some(e.answer))
  {
    var i := OwnFinds(s, call, 0);
    assert OwnAt(s, call, 0, i);
  }

  lemma LaterEffect(n: nat, s: State, call: Call)
    requires OwnClaims(s, call, 0).Continue? && LaterRounds(n, s, call, call.round + 1).Returns?
    ensures var e := LaterRounds(n, s, call, call.round + 1);
            Effect(n, s, call, e.state, Some(e.answer))
  {
    OwnExactly(s, call, 0);
    var k, id := LaterFinds(n, s, call, call.round + 1);
    assert LaterAt(n, s, call, call.round + 1, k, id);
  }

  lemma DecideEffect(t: KeyPair, n: nat, s: State, call: Call)
    ensures var (s', answer) := Decide(t, n, s, call);
            Effect(n, s, call, s', answer)
  {
  }

  /** What one call does to the memory, whatever the state. */
  lemma CallEffect(t: KeyPair, n: nat, s: State, call: Call)
    ensures var (s', answer) := Resolve(t, n, s, call);
            Effect(n, s, call, s', answer)
  {
    if EarlierRounds(s, call, 0).Returns? {
      EarlierEffect(n, s, call);
    } else if EarlierRounds(s, call, 0).Continue? {
      if OwnClaims(s, call, 0).Returns? {
        OwnEffect(n, s, call);
      } else if OwnClaims(s, call, 0).Continue? {
        if LaterRounds(n, s, call, call.round + 1).Returns? {
          LaterEffect(n, s, call);
        } else {
          LaterKeeps(n, s, call, call.round + 1);
          DecideEffect(t, n, s, call);
        }
      }
    }
  }

  /**
   * The honesty token is answered exactly when the list is long enough up to the first entry before the last round that
   * holds somebody else, and there is such an entry.
   */
  lemma HonestyTokenExactly(t: KeyPair, n: nat, s: State, call: Call)
    ensures var answer := Resolve(t, n, s, call).1;
            (answer.Some? && answer.value.HonestyToken?) <==> exists k: nat, id :: EarlierAt(s, call, 0, k, id)
  {
    OwnKeeps(s, call, 0);
    LaterKeeps(n, s, call, call.round + 1);
    if EarlierRounds(s, call, 0).Returns? {
      var k, id := EarlierFinds(s, call, 0);
      assert EarlierAt(s, call, 0, k, id);
    }
    if k: nat, id :| EarlierAt(s, call, 0, k, id) {
      EarlierFound(s, call, 0, k, id);
    }
  }

  /** The list reaches the entry before the last round, and nobody else is in an entry before that. */
  ghost predicate NobodyEarlier(s: State, call: Call) {
    && call.round - 1 <= |s.claims|
    && forall j :: 0 <= j < |s.claims| && j < call.round - 1 ==> Other(call, s.claims[j]).None?
  }

  /**
   * The sender is called dishonest exactly when nobody else is found in an earlier round, and an entry of another round
   * holds a request of its own, or an entry of a later round holds somebody else.
   */
  lemma SenderDishonestExactly(t: KeyPair, n: nat, s: State, call: Call)
    ensures var answer := Resolve(t, n, s, call).1;
            (answer.Some? && answer.value.SenderDishonest?)
            <==> NobodyEarlier(s, call)
                 && ((exists i: nat :: OwnAt(s, call, 0, i))
                     || exists k: nat, id :: LaterEntry(n, s, call, k, id))
  {
    EarlierExactly(s, call, 0);
    EarlierKeeps(s, call, 0);
    OwnKeeps(s, call, 0);
    LaterKeeps(n, s, call, call.round + 1);
    OwnIff(s, call);
    LaterIff(n, s, call);
  }

  ghost predicate LaterEntry(n: nat, s: State, call: Call, k: nat, id: Id) {
    LaterAt(n, s, call, call.round + 1, k, id)
  }

  lemma OwnIff(s: State, call: Call)
    ensures OwnClaims(s, call, 0).Returns? <==> exists i: nat :: OwnAt(s, call, 0, i)
  {
    if OwnClaims(s, call, 0).Returns? {
      var i := OwnFinds(s, call, 0);
      assert OwnAt(s, call, 0, i);
    }
    if i: nat :| OwnAt(s, call, 0, i) { OwnFound(s, call, 0, i); }
  }

  lemma LaterIff(n: nat, s: State, call: Call)
    ensures LaterRounds(n, s, call, call.round + 1).Returns?
            <==> exists k: nat, id :: LaterEntry(n, s, call, k, id)
  {
    if LaterRounds(n, s, call, call.round + 1).Returns? {
      var k, id := LaterFinds(n, s, call, call.round + 1);
      assert LaterEntry(n, s, call, k, id);
    }
    if k: nat, id :| LaterEntry(n, s, call, k, id) { LaterFound(n, s, call, call.round + 1, k, id); }
  }

  // ----- nothing is forgotten -----

  ghost predicate Stored(s: State, i: nat, id: Id, q: Request) {
    i < |s.claims| && id in s.claims[i] && s.claims[i][id] == q
  }

  ghost predicate Holds(s: State, id: Id, q: Request) {
    exists i: nat :: Stored(s, i, id, q)
  }

  /** The call was answered with somebody's dishonesty, and id is kept with q and the request that exposed it. */
  ghost predicate Exposed(s': State, call: Call, answer: Option<Answer>, id: Id, q: Request) {
    && answer.Some? && id in s'.dishonest
    && ((answer.value.HonestyToken? && s'.dishonest[id] == (q, call.request))
        || (answer.value.SenderDishonest? && s'.dishonest[id] == (call.request, q)))
  }

  lemma MovedHolds(s: State, k: nat, gone: Id, who: Id, requests: (Request, Request), i: nat, id: Id, q: Request)
    requires k < |s.claims| && Stored(s, i, id, q) && (i != k || id != gone)
    ensures Holds(Moved(s, k, gone, who, requests), id, q)
  {
    assert Stored(Moved(s, k, gone, who, requests), i, id, q);
  }

  lemma EarlierLoses(s: State, call: Call, s': State, i: nat, id: Id, q: Request)
    requires ShownEarlier(s, call, s') && Stored(s, i, id, q)
    ensures Holds(s', id, q) || (id in s'.dishonest && s'.dishonest[id] == (q, call.request))
  {
    var k: nat, other :| EarlierAt(s, call, 0, k, other)
      && s' == Moved(s, k, other, other, (s.claims[k][other], call.request));
    if i != k || id != other { MovedHolds(s, k, other, other, (s.claims[k][other], call.request), i, id, q); }
  }

  lemma OwnLoses(s: State, call: Call, s': State, i: nat, id: Id, q: Request)
    requires ShownOwn(s, call, s') && Stored(s, i, id, q)
    ensures Holds(s', id, q) || (id in s'.dishonest && s'.dishonest[id] == (call.request, q))
  {
    var j: nat :| OwnAt(s, call, 0, j) && call.sender in s.claims[j]
      && s' == Moved(s, FirstEqual(s.claims, s.claims[j]), call.sender, call.sender,
                     (call.request, s.claims[j][call.sender]));
    var k := FirstEqual(s.claims, s.claims[j]);
    if i != k || id != call.sender {
      MovedHolds(s, k, call.sender, call.sender, (call.request, s.claims[j][call.sender]), i, id, q);
    }
  }

  /** A request of the sender in a later entry is one that is also in the entry of this round. */
  lemma LaterLoses(n: nat, s: State, call: Call, s': State, i: nat, id: Id, q: Request)
    requires ShownLater(n, s, call, s') && Stored(s, i, id, q)
    ensures Holds(s', id, q)
  {
    var k: nat, other :| LaterAt(n, s, call, call.round + 1, k, other)
      && s' == Moved(s, k, call.sender, call.sender, (call.request, s.claims[k][other]));
    var requests := (call.request, s.claims[k][other]);
    if i == k && id == call.sender {
      assert OwnRound(s, call, k);
      MovedHolds(s, k, call.sender, call.sender, requests, call.round, id, q);
    } else {
      MovedHolds(s, k, call.sender, call.sender, requests, i, id, q);
    }
  }

  lemma InsertedHolds(s: State, call: Call, s': State, i: nat, id: Id, q: Request)
    requires Inserted(s, call, s') && Stored(s, i, id, q)
    ensures Holds(s', id, q)
  {
    assert Stored(s', if i < call.round then i else i + 1, id, q);
  }

  /** One call loses no stored request, but for one that it moves to the dishonest ones together with its own. */
  lemma CallLosesNothing(t: KeyPair, n: nat, s: State, call: Call, id: Id, q: Request)
    requires Holds(s, id, q)
    ensures var (s', answer) := Resolve(t, n, s, call);
            Holds(s', id, q) || Exposed(s', call, answer, id, q)
  {
    CallEffect(t, n, s, call);
    var (s', answer) := Resolve(t, n, s, call);
    var i: nat :| Stored(s, i, id, q);
    match answer
    case None => assert Stored(s', i, id, q);
    case Some(Resolved(_)) => assert Stored(s', i, id, q);
    case Some(Aborted(_, _)) => InsertedHolds(s, call, s', i, id, q);
    case Some(HonestyToken(_, _)) => EarlierLoses(s, call, s', i, id, q);
    case Some(SenderDishonest) =>
      if ShownOwn(s, call, s') { OwnLoses(s, call, s', i, id, q); } else { LaterLoses(n, s, call, s', i, id, q); }
  }

  // ----- over all sequences of calls -----

  /** Call l was answered with the dishonesty of id, which is kept after it with q and the request of call l. */
  ghost predicate ExposedBy(t: KeyPair, n: nat, calls: seq<Call>, l: nat, id: Id, q: Request) {
    && l < |calls|
    && var (s, answer) := Resolve(t, n, Run(t, n, calls[..l]).0, calls[l]);
       Exposed(s, calls[l], answer, id, q)
  }

  lemma ExposedStays(t: KeyPair, n: nat, calls: seq<Call>, l: nat, id: Id, q: Request)
    requires calls != [] && l < |calls| - 1
    ensures ExposedBy(t, n, calls[..|calls| - 1], l, id, q) <==> ExposedBy(t, n, calls, l, id, q)
  {
    assert calls[..|calls| - 1][..l] == calls[..l];
  }

  lemma RunStep(t: KeyPair, n: nat, calls: seq<Call>)
    requires calls != []
    ensures var last := |calls| - 1;
            Run(t, n, calls).0 == Resolve(t, n, Run(t, n, calls[..last]).0, calls[last]).0
  {
  }

  /** What is stored before the last call is stored after it, or that call exposed its sender with it. */
  lemma LastKeeps(t: KeyPair, n: nat, calls: seq<Call>, id: Id, q: Request)
    requires calls != [] && Holds(Run(t, n, calls[..|calls| - 1]).0, id, q)
    ensures Holds(Run(t, n, calls).0, id, q) || ExposedBy(t, n, calls, |calls| - 1, id, q)
  {
    var last := |calls| - 1;
    CallLosesNothing(t, n, Run(t, n, calls[..last]).0, calls[last], id, q);
    RunStep(t, n, calls);
  }

  /**
   * What is stored after the first j calls is stored at any later time, or some later call exposed its sender with it.
   */
  lemma {:induction false} StoredStays(t: KeyPair, n: nat, calls: seq<Call>, j: nat, id: Id, q: Request)
    requires j <= |calls| && Holds(Run(t, n, calls[..j]).0, id, q)
    ensures Holds(Run(t, n, calls).0, id, q) || exists l: nat :: j <= l && ExposedBy(t, n, calls, l, id, q)
    decreases |calls|
  {
    if j == |calls| {
      assert calls[..j] == calls;
    } else {
      var before := calls[..|calls| - 1];
      assert before[..j] == calls[..j];
      StoredStays(t, n, before, j, id, q);
      if Holds(Run(t, n, before).0, id, q) {
        LastKeeps(t, n, calls, id, q);
      } else {
        var l: nat :| j <= l && ExposedBy(t, n, before, l, id, q);
        ExposedStays(t, n, calls, l, id, q);
      }
    }
  }

  /**
   * Over any sequence of calls: a request answered as aborted is stored alone at the index of its round, behind the
   * earlier rounds and before the later ones, and it is not forgotten as long as its sender is not exposed with it.
   */
  lemma AbortRemembered(t: KeyPair, n: nat, calls: seq<Call>, j: nat)
    requires j < |calls|
    requires var answer := Resolve(t, n, Run(t, n, calls[..j]).0, calls[j]).1;
             answer.Some? && answer.value.Aborted?
    ensures Inserted(Run(t, n, calls[..j]).0, calls[j], Run(t, n, calls[..j + 1]).0)
    ensures var (id, q) := (calls[j].sender, calls[j].request);
            Holds(Run(t, n, calls).0, id, q) || exists l: nat :: j < l && ExposedBy(t, n, calls, l, id, q)
  {
    CallEffect(t, n, Run(t, n, calls[..j]).0, calls[j]);
    assert calls[..j + 1][..j] == calls[..j];
    RunStep(t, n, calls[..j + 1]);
    var s := Run(t, n, calls[..j + 1]).0;
    assert Stored(s, calls[j].round, calls[j].sender, calls[j].request);
    StoredStays(t, n, calls, j + 1, calls[j].sender, calls[j].request);
  }
}
