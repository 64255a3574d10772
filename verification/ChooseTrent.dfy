/** Agreeing on a trusted third party in three rounds of messages (`ProtocolChooseTrent`). */
module ChooseTrent {
  import opened Wrappers
  import NumberTheory

  /** A user, by public key. */
  type User = int

  datatype Message =
    | Candidates(from: nat, list: seq<User>)
    | Number(from: nat, number: int)
    | Choice(from: nat, key: User)

  /** One row of `hasSent`: who was heard in a round, and a last slot that marks the row as complete. */
  type Row = seq<bool>

  /** The three rows of `hasSent` are `lists`, `numbers` and `choices`. */
  datatype Chooser = Chooser(list: seq<User>, finalNumber: int, lists: Row, numbers: Row, choices: Row,
                             trentKey: Option<User>, signing: bool, resets: nat)

  /** n parties, which one this is, and the number it drew. */
  datatype Config = Config(n: nat, me: nat, random: int)

  function Missing(length: nat): (row: Row)
    ensures |row| == length && forall i :: 0 <= i < length ==> !row[i]
  {
    seq(length, i => false)
  }

  function NewChooser(c: Config, list: seq<User>): Chooser {
    Chooser(list, c.random, Missing(c.n + 1), Missing(c.n + 1), Missing(c.n + 1), None, false, 0)
  }

  /** `indexOf(null)`, or -1. */
  function FirstMissing(row: Row): (i: int)
    ensures -1 <= i < |row|
    ensures i >= 0 ==> !row[i] && forall j :: 0 <= j < i ==> row[j]
    ensures i < 0 ==> forall j :: 0 <= j < |row| ==> row[j]
  {
    if row == [] then -1
    else if !row[0] then 0
    else
      var i := FirstMissing(row[1..]);
      if i < 0 then -1 else i + 1
  }

  function Mark(row: Row, j: nat): Row {
    if j < |row| then row[j := true] else row
  }

  function Insert(u: User, list: seq<User>): (r: seq<User>)
    ensures |r| == |list| + 1
  {
    if list == [] || u <= list[0] then [u] + list else [list[0]] + Insert(u, list[1..])
  }

  /** `list.sort` by public key. */
  function SortByKey(list: seq<User>): (r: seq<User>)
    ensures |r| == |list|
  {
    if list == [] then [] else Insert(list[0], SortByKey(list[1..]))
  }

  predicate SomeAgree(other: seq<User>, window: seq<User>)
    requires |other| == |window|
  {
    exists k :: 0 <= k < |other| && other[k] == window[k]
  }

  /**
   * The filtering of `list` by `other`. The inner loop advances the iterator of the outer one, so a whole window of
   * the list is compared position by position; `next` or `remove` may throw, and leave what was removed before.
   */
  function Filter(list: seq<User>, other: seq<User>, cursor: nat): (seq<User>, bool)
    decreases |list| - cursor
  {
    if cursor >= |list| then (list, true)
    else if other == [] || cursor + |other| > |list| then (list, false)
    else
      var next := cursor + |other|;
      if SomeAgree(other, list[cursor..next]) then Filter(list, other, next)
      else Filter(list[..next - 1] + list[next..], other, next - 1)
  }

  /** What a call does: the new state, what is sent, and whether it returned. */
  datatype Outcome = Outcome(party: Chooser, sent: seq<Message>, ok: bool)

  /** `sendMessage`: the candidates go out and the sender counts as heard. */
  function Send(c: Config, s: Chooser): Outcome {
    Outcome(s.(lists := Mark(s.lists, c.me)), [Candidates(c.me, s.list)], true)
  }

  /** The branch taken when two choices differ. */
  function StartOver(c: Config, s: Chooser): Outcome {
    Send(c, Chooser(s.list, s.finalNumber, Missing(c.n), Missing(c.n), Missing(c.n), None, s.signing, s.resets + 1))
  }

  function OnCandidates(c: Config, s: Chooser, j: nat, other: seq<User>): Outcome {
    if FirstMissing(s.lists) == -1 then Outcome(s, [], true)
    else
      var (list, ok) := Filter(s.list, other, 0);
      var lists := Mark(s.lists, j);
      if !ok then Outcome(s.(list := list), [], false)
      else if FirstMissing(lists) == c.n then
        Outcome(s.(list := SortByKey(list), lists := Mark(lists, c.n), numbers := Mark(s.numbers, c.me)),
                [Number(c.me, c.random)], true)
      else Outcome(s.(list := list, lists := lists), [], true)
  }

  /** A number counts the first time only. */
  function HeardNumber(s: Chooser, j: nat, number: int): Chooser {
    if j < |s.numbers| && !s.numbers[j] then s.(finalNumber := s.finalNumber + number, numbers := Mark(s.numbers, j))
    else s
  }

  /** All numbers are there: pick from the list, tell the others, and start over on a mismatch. */
  function Pick(c: Config, s: Chooser): Outcome {
    if s.list == [] then Outcome(s, [], true)
    else
      var user := s.list[s.finalNumber % |s.list|];
      var trentKey := if s.trentKey == None then Some(user) else s.trentKey;
      var s' := s.(trentKey := trentKey, choices := Mark(s.choices, c.me));
      if trentKey == Some(user) then Outcome(s', [Choice(c.me, user)], true)
      else Outcome(StartOver(c, s').party, [Choice(c.me, user)] + StartOver(c, s').sent, true)
  }

  function OnNumber(c: Config, s: Chooser, j: nat, number: int): Outcome {
    if FirstMissing(s.numbers) == -1 then Outcome(s, [], true)
    else
      var s1 := HeardNumber(s, j, number);
      if FirstMissing(s1.numbers) != c.n then Outcome(s1, [], true)
      else Pick(c, s1.(numbers := Mark(s1.numbers, c.n)))
  }

  function OnChoice(c: Config, s: Chooser, j: nat, key: User): Outcome {
    if FirstMissing(s.choices) == -1 then Outcome(s, [], true)
    else if s.trentKey == None then Outcome(s.(trentKey := Some(key), choices := Mark(s.choices, j)), [], true)
    else if s.trentKey == Some(key) then
      var choices := Mark(s.choices, j);
      if FirstMissing(choices) == c.n then Outcome(s.(choices := Mark(choices, c.n), signing := true), [], true)
      else Outcome(s.(choices := choices), [], true)
    else StartOver(c, s)
  }

  /** `notify`; an unknown sender makes it throw. */
  function Notify(c: Config, s: Chooser, m: Message): Outcome {
    if m.from >= c.n then Outcome(s, [], false)
    else match m
    case Candidates(j, other) => OnCandidates(c, s, j, other)
    case Number(j, number) => OnNumber(c, s, j, number)
    case Choice(j, key) => OnChoice(c, s, j, key)
  }

  // ----- the step object -----

  class ChooseStep {
    const config: Config
    var list: seq<User>
    var finalNumber: int
    var lists: Row
    var numbers: Row
    var choices: Row
    var trentKey: Option<User>
    var signing: bool
    var resets: nat
    var outbox: seq<Message>

    ghost function Now(): Chooser
      reads this
    {
      Chooser(list, finalNumber, lists, numbers, choices, trentKey, signing, resets)
    }

    /** The object is as `o` says, after `before` had been sent. */
    ghost predicate Did(o: Outcome, before: seq<Message>, ok: bool)
      reads this
    {
      Now() == o.party && outbox == before + o.sent && ok == o.ok
    }

    constructor (config: Config, users: seq<User>)
      ensures this.config == config && Now() == NewChooser(config, users) && outbox == []
    {
      this.config, list, finalNumber := config, users, config.random;
      lists, numbers, choices := Missing(config.n + 1), Missing(config.n + 1), Missing(config.n + 1);
      trentKey, signing, resets, outbox := None, false, 0, [];
    }

    method SendMessage()
      modifies this
      ensures Did(Send(config, old(Now())), old(outbox), true)
    {
      outbox := outbox + [Candidates(config.me, list)];
      lists := Mark(lists, config.me);
    }

    method Restart()
      modifies this
      ensures Did(StartOver(config, old(Now())), old(outbox), true)
    {
      lists, numbers, choices := Missing(config.n), Missing(config.n), Missing(config.n);
      trentKey, resets := None, resets + 1;
      SendMessage();
    }

    /** The iterator loops over both lists. */
    method FilterList(other: seq<User>) returns (ok: bool)
      modifies `list
      ensures (list, ok) == Filter(old(list), other, 0)
    {
      var cursor := 0;
      while cursor < |list|
        invariant 0 <= cursor <= |list|
        invariant Filter(list, other, cursor) == Filter(old(list), other, 0)
        decreases |list| - cursor
      {
        if other == [] || cursor + |other| > |list| { return false; }
        var isInBoth, start := false, cursor;
        for k := 0 to |other|
          invariant cursor == start + k && start + |other| <= |list|
          invariant isInBoth <==> exists i :: 0 <= i < k && other[i] == list[start..start + |other|][i]
        {
          if other[k] == list[cursor] { isInBoth := true; }
          cursor := cursor + 1;
        }
        if !isInBoth {
          list, cursor := list[..cursor - 1] + list[cursor..], cursor - 1;
        }
      }
      return true;
    }

    method ReceiveCandidates(j: nat, other: seq<User>) returns (ok: bool)
      modifies this
      ensures Did(OnCandidates(config, old(Now()), j, other), old(outbox), ok)
    {
      if FirstMissing(lists) == -1 { return true; }
      ok := FilterList(other);
      if !ok { return; }
      lists := Mark(lists, j);
      if FirstMissing(lists) == config.n {
        lists, list, numbers := Mark(lists, config.n), SortByKey(list), Mark(numbers, config.me);
        outbox := outbox + [Number(config.me, config.random)];
      }
    }

    method ReceiveNumber(j: nat, number: int)
      modifies this
      ensures Did(OnNumber(config, old(Now()), j, number), old(outbox), true)
    {
      if FirstMissing(numbers) == -1 { return; }
      if j < |numbers| && !numbers[j] {
        finalNumber, numbers := finalNumber + number, Mark(numbers, j);
      }
      if FirstMissing(numbers) == config.n {
        numbers := Mark(numbers, config.n);
        PickTrent();
      }
    }

    method PickTrent()
      modifies this
      ensures Did(Pick(config, old(Now())), old(outbox), true)
    {
      if list == [] { return; }
      var user := list[finalNumber % |list|];
      if trentKey == None { trentKey := Some(user); }
      outbox := outbox + [Choice(config.me, user)];
      choices := Mark(choices, config.me);
      if trentKey != Some(user) { Restart(); }
    }

    method ReceiveChoice(j: nat, key: User)
      modifies this
      ensures Did(OnChoice(config, old(Now()), j, key), old(outbox), true)
    {
      if FirstMissing(choices) == -1 { return; }
      if trentKey == None {
        trentKey, choices := Some(key), Mark(choices, j);
      } else if trentKey == Some(key) {
        choices := Mark(choices, j);
        if FirstMissing(choices) == config.n {
          choices, signing := Mark(choices, config.n), true;
        }
      } else {
        Restart();
      }
    }

    /** The listener. */
    method Listen(m: Message) returns (ok: bool)
      modifies this
      ensures Did(Notify(config, old(Now()), m), old(outbox), ok)
    {
      if m.from >= config.n { return false; }
      ok := true;
      match m {
        case Candidates(j, other) => ok := ReceiveCandidates(j, other);
        case Number(j, number) => ReceiveNumber(j, number);
        case Choice(j, key) => ReceiveChoice(j, key);
      }
    }
  }

  // ----- the filter and the order -----

  lemma FilterSame(list: seq<User>)
    ensures Filter(list, list, 0) == (list, true)
  {
    if list != [] {
      assert list[0..|list|] == list == [list[0]] + list[1..];
      assert SomeAgree(list, list);
      assert Filter(list, list, |list|) == (list, true);
    }
  }

  /** For a list of the same length the filter drops at most the last user, and only when no position agrees. */
  lemma FilterSameLength(list: seq<User>, other: seq<User>)
    requires |list| == |other| > 0
    ensures Filter(list, other, 0) == (if SomeAgree(other, list) then list else list[..|list| - 1], true)
  {
    var n := |list|;
    assert list[0..n] == list;
    if SomeAgree(other, list) {
      assert Filter(list, other, n) == (list, true);
    } else {
      assert list[..n - 1] + list[n..] == list[..n - 1];
      assert Filter(list[..n - 1], other, n - 1) == (list[..n - 1], true);
    }
  }

  /** What is kept of a window. */
  function Kept(other: seq<User>, window: seq<User>): seq<User>
    requires |other| == |window| > 0
  {
    if SomeAgree(other, window) then window else window[..|window| - 1]
  }

  /** What is kept of a list: window by window, and a remainder that is shorter than a window. */
  function Windowed(list: seq<User>, other: seq<User>): seq<User>
    requires other != []
    decreases |list|
  {
    if |list| < |other| then list else Kept(other, list[..|other|]) + Windowed(list[|other|..], other)
  }

  /** One round of the outer loop. */
  lemma FilterWindow(done: seq<User>, w: seq<User>, rest: seq<User>, other: seq<User>)
    requires |other| == |w| > 0
    ensures Filter((done + w) + rest, other, |done|) ==
            Filter((done + Kept(other, w)) + rest, other, |done + Kept(other, w)|)
  {
    var m, list := |other|, (done + w) + rest;
    assert list[|done|..|done| + m] == w;
    if !SomeAgree(other, w) {
      assert list[..|done| + m - 1] == done + w[..m - 1] && list[|done| + m..] == rest;
    }
  }

  /** Whether windows of size m cover n users. */
  predicate Covered(n: nat, m: nat)
    requires m > 0
  {
    n == 0 || (n >= m && Covered(n - m, m))
  }

  lemma {:induction false} CoveredExactly(n: nat, m: nat)
    requires m > 0
    ensures Covered(n, m) <==> n % m == 0
  {
    if n >= m {
      CoveredExactly(n - m, m);
      NumberTheory.SameRemainder(n, n - m, 1, m);
    } else {
      NumberTheory.DivModUnique(n, 0, n, m);
    }
  }

  lemma FilterStops(done: seq<User>, rest: seq<User>, other: seq<User>)
    requires |rest| < |other|
    ensures Filter(done + rest, other, |done|) == (done + rest, rest == [])
  {
  }

  /** The filter works window by window, and returns exactly when the windows cover the list. */
  lemma {:induction false} FilterIsWindowed(done: seq<User>, rest: seq<User>, other: seq<User>)
    requires other != []
    ensures Filter(done + rest, other, |done|) == (done + Windowed(rest, other), Covered(|rest|, |other|))
    decreases |rest|
  {
    if |rest| < |other| {
      FilterStops(done, rest, other);
    } else {
      var w, rest' := rest[..|other|], rest[|other|..];
      var kept := Kept(other, w);
      AppendAssociates(done, w, rest');
      assert rest == w + rest';
      FilterWindow(done, w, rest', other);
      FilterIsWindowed(done + kept, rest', other);
      AppendAssociates(done, kept, Windowed(rest', other));
    }
  }

  /** The users of one list that are on the other: what the filter is meant to keep. */
  function Common(list: seq<User>, other: seq<User>): seq<User> {
    if list == [] then []
    else
      var last := |list| - 1;
      Common(list[..last], other) + if list[last] in other then [list[last]] else []
  }

  ghost predicate AllIn(list: seq<User>, other: seq<User>) {
    forall k :: 0 <= k < |list| ==> list[k] in other
  }

  lemma {:induction false} CommonAppend(x: seq<User>, y: seq<User>, other: seq<User>)
    ensures Common(x + y, other) == Common(x, other) + Common(y, other)
    decreases |y|
  {
    if y == [] {
      assert x + y == x;
    } else {
      var last := |y| - 1;
      assert (x + y)[..|x + y| - 1] == x + y[..last];
      CommonAppend(x, y[..last], other);
    }
  }

  lemma {:induction false} CommonBounds(list: seq<User>, other: seq<User>)
    ensures AllIn(Common(list, other), other) && |Common(list, other)| <= |list|
    ensures AllIn(list, other) ==> Common(list, other) == list
    ensures |Common(list, other)| == |list| ==> AllIn(list, other)
  {
    if list != [] {
      CommonBounds(list[..|list| - 1], other);
      assert list == list[..|list| - 1] + [list[|list| - 1]];
    }
  }

  /** The window is kept as it should: all of it, or all but a last user that the other list does not have. */
  ghost predicate GoodWindow(other: seq<User>, window: seq<User>)
    requires |other| == |window| > 0
  {
    var last := |window| - 1;
    if SomeAgree(other, window) then AllIn(window, other)
    else AllIn(window[..last], other) && window[last] !in other
  }

  ghost predicate WindowsGood(list: seq<User>, other: seq<User>)
    requires other != []
    decreases |list|
  {
    |list| >= |other| ==> GoodWindow(other, list[..|other|]) && WindowsGood(list[|other|..], other)
  }

  lemma WindowExactly(other: seq<User>, window: seq<User>)
    requires |other| == |window| > 0
    ensures Kept(other, window) == Common(window, other) <==> GoodWindow(other, window)
    ensures AllIn(Kept(other, window), other) ==> |Common(window, other)| >= |Kept(other, window)|
  {
    CommonBounds(window, other);
    CommonBounds(window[..|window| - 1], other);
  }

  lemma {:induction false} EnoughCommon(list: seq<User>, other: seq<User>)
    requires other != [] && AllIn(Windowed(list, other), other)
    ensures |Common(list, other)| >= |Windowed(list, other)|
    decreases |list|
  {
    if |list| < |other| {
      CommonBounds(list, other);
    } else {
      var w, rest := list[..|other|], list[|other|..];
      SplitIn(Kept(other, w), Windowed(rest, other), other);
      WindowExactly(other, w);
      EnoughCommon(rest, other);
      assert list == w + rest;
      CommonAppend(w, rest, other);
    }
  }

  lemma SplitIn(x: seq<User>, y: seq<User>, other: seq<User>)
    ensures AllIn(x + y, other) <==> AllIn(x, other) && AllIn(y, other)
  {
    assert forall k :: 0 <= k < |x| ==> x[k] == (x + y)[k];
    assert forall k :: 0 <= k < |y| ==> y[k] == (x + y)[|x| + k];
    if AllIn(x, other) && AllIn(y, other) {
      forall k | 0 <= k < |x + y| ensures (x + y)[k] in other {
        if k >= |x| { assert (x + y)[k] == y[k - |x|]; }
      }
    }
  }

  lemma {:induction false} WindowedExactly(list: seq<User>, other: seq<User>)
    requires other != [] && Covered(|list|, |other|)
    ensures Windowed(list, other) == Common(list, other) <==> WindowsGood(list, other)
    decreases |list|
  {
    if |list| >= |other| {
      var w, rest := list[..|other|], list[|other|..];
      assert list == w + rest;
      WindowedExactly(rest, other);
      WindowExactly(other, w);
      CommonAppend(w, rest, other);
      CommonBounds(list, other);
      if Windowed(list, other) == Common(list, other) {
        SplitIn(Kept(other, w), Windowed(rest, other), other);
        EnoughCommon(rest, other);
        SamePieces(Kept(other, w), Windowed(rest, other), Common(w, other), Common(rest, other));
      }
    }
  }

  lemma SamePieces(x: seq<User>, y: seq<User>, x': seq<User>, y': seq<User>)
    requires x + y == x' + y' && |x'| >= |x| && |y'| >= |y|
    ensures x == x' && y == y'
  {
    assert |x + y| == |x' + y'|;
    assert x == (x + y)[..|x|] && x' == (x' + y')[..|x|];
    assert y == (x + y)[|x|..] && y' == (x' + y')[|x|..];
  }

  /**
   * The filter returns at all exactly when the other list's length divides the list's; and it returns the intersection
   * exactly when, besides, every window either agrees with the other list somewhere and lies in it, or agrees nowhere
   * and lies in it but for its last user.
   */
  lemma FilterExactly(list: seq<User>, other: seq<User>)
    ensures Filter(list, other, 0).1 <==> if other == [] then list == [] else |list| % |other| == 0
    ensures Filter(list, other, 0) == (Common(list, other), true) <==>
            if other == [] then list == [] else |list| % |other| == 0 && WindowsGood(list, other)
  {
    if other != [] {
      assert [] + list == list && [] + Windowed(list, other) == Windowed(list, other);
      FilterIsWindowed([], list, other);
      CoveredExactly(|list|, |other|);
      if |list| % |other| == 0 { WindowedExactly(list, other); }
    }
  }

  /** For lists of the same length the one window is the whole list. */
  lemma SameLengthExactly(list: seq<User>, other: seq<User>)
    requires |list| == |other| > 0
    ensures var last := |list| - 1;
            Filter(list, other, 0) == (Common(list, other), true) <==>
              if SomeAgree(other, list) then AllIn(list, other)
              else AllIn(list[..last], other) && list[last] !in other
  {
    assert list[..|other|] == list && list[|other|..] == [];
    FilterExactly(list, other);
    NumberTheory.DivModUnique(|list|, 1, 0, |other|);
  }

  /** Two parties that list the same two users in different order lose one of them. */
  lemma FilterNotIntersection()
    ensures Filter([1, 2], [2, 1], 0) == ([1], true) && Common([1, 2], [2, 1]) == [1, 2]
  {
    FilterSameLength([1, 2], [2, 1]);
    assert [1, 2][..1] == [1];
    CommonBounds([1, 2], [2, 1]);
  }

  ghost predicate Sorted(list: seq<User>) {
    forall i, j :: 0 <= i < j < |list| ==> list[i] <= list[j]
  }

  lemma {:induction false} InsertKeepsAll(u: User, list: seq<User>)
    ensures multiset(Insert(u, list)) == multiset(list) + multiset{u}
  {
    if !(list == [] || u <= list[0]) {
      InsertKeepsAll(u, list[1..]);
      assert list == [list[0]] + list[1..];
    }
  }

  lemma {:induction false} InsertSorted(u: User, list: seq<User>)
    requires Sorted(list)
    ensures Sorted(Insert(u, list))
    ensures forall k :: 0 <= k < |list| + 1 ==> Insert(u, list)[k] == u || Insert(u, list)[k] in list
  {
    if !(list == [] || u <= list[0]) {
      InsertSorted(u, list[1..]);
      var rest := Insert(u, list[1..]);
      forall k | 0 <= k < |rest| ensures rest[k] >= list[0] && (rest[k] == u || rest[k] in list) {}
    }
  }

  lemma {:induction false} SortByKeySorts(list: seq<User>)
    ensures Sorted(SortByKey(list)) && multiset(SortByKey(list)) == multiset(list)
  {
    if list != [] {
      SortByKeySorts(list[1..]);
      InsertSorted(list[0], SortByKey(list[1..]));
      InsertKeepsAll(list[0], SortByKey(list[1..]));
      assert list == [list[0]] + list[1..];
    }
  }

  // ----- the network of n parties -----

  /** All parties start from the same candidates; `numbers[i]` is what party i draws. */
  datatype Setup = Setup(n: nat, candidates: seq<User>, numbers: seq<int>)

  datatype Global = Global(parties: seq<Chooser>, net: set<Message>)

  ghost predicate ValidSetup(a: Setup) {
    |a.numbers| == a.n
  }

  function ConfigOf(a: Setup, i: nat): Config
    requires i < |a.numbers|
  {
    Config(a.n, i, a.numbers[i])
  }

  function Init(a: Setup): Global
    requires |a.numbers| == a.n
  {
    Global(seq(a.n, i requires 0 <= i < a.n => NewChooser(ConfigOf(a, i), a.candidates)), {})
  }

  /** Party i presses the button, once, or receives a message that was sent, possibly again. */
  datatype Event = Start(i: nat) | Deliver(i: nat, m: Message)

  ghost predicate Enabled(a: Setup, g: Global, e: Event) {
    && e.i < |g.parties|
    && match e
       case Start(i) => i < |g.parties[i].lists| && !g.parties[i].lists[i]
       case Deliver(i, m) => m in g.net
  }

  function Reaction(a: Setup, g: Global, e: Event): Outcome
    requires |g.parties| == a.n == |a.numbers| && e.i < a.n
  {
    match e
    case Start(i) => Send(ConfigOf(a, i), g.parties[i])
    case Deliver(i, m) => Notify(ConfigOf(a, i), g.parties[i], m)
  }

  /** The whole network after one event. */
  ghost function Next(a: Setup, g: Global, e: Event): (g': Global)
    requires |g.parties| == a.n == |a.numbers|
    ensures |g'.parties| == a.n
  {
    if !Enabled(a, g, e) then g
    else
      var o := Reaction(a, g, e);
      Global(g.parties[e.i := o.party], g.net + set m | m in o.sent)
  }

  // ----- what every run keeps -----

  function Sum(numbers: seq<int>, counted: Row): int
    requires |counted| >= |numbers|
  {
    if numbers == [] then 0
    else
      var last := |numbers| - 1;
      Sum(numbers[..last], counted) + if counted[last] then numbers[last] else 0
  }

  function Total(numbers: seq<int>): int {
    if numbers == [] then 0 else Total(numbers[..|numbers| - 1]) + numbers[|numbers| - 1]
  }

  lemma {:induction false} SumMark(numbers: seq<int>, counted: Row, j: nat)
    requires |counted| >= |numbers| && j < |counted| && !counted[j]
    ensures Sum(numbers, counted[j := true]) == Sum(numbers, counted) + if j < |numbers| then numbers[j] else 0
  {
    if numbers != [] {
      SumMark(numbers[..|numbers| - 1], counted, j);
    }
  }

  lemma {:induction false} SumNone(numbers: seq<int>, counted: Row)
    requires |counted| >= |numbers| && forall j :: 0 <= j < |numbers| ==> !counted[j]
    ensures Sum(numbers, counted) == 0
  {
    if numbers != [] { SumNone(numbers[..|numbers| - 1], counted); }
  }

  lemma {:induction false} SumAll(numbers: seq<int>, counted: Row)
    requires |counted| >= |numbers| && forall j :: 0 <= j < |numbers| ==> counted[j]
    ensures Sum(numbers, counted) == Total(numbers)
  {
    if numbers != [] { SumAll(numbers[..|numbers| - 1], counted); }
  }

  /** The candidate everybody ends up with: the numbers of all parties pick from the sorted candidates. */
  function Agreed(a: Setup): Option<User> {
    if a.candidates == [] then None
    else Some(SortByKey(a.candidates)[Total(a.numbers) % |a.candidates|])
  }

  ghost predicate RowOk(n: nat, row: Row) {
    |row| == n + 1 && (row[n] ==> forall j :: 0 <= j < n ==> row[j])
  }

  /** A party counts its own number from the start, and then one for each party heard. */
  ghost predicate CountOk(a: Setup, i: nat, s: Chooser)
    requires i < a.n == |a.numbers| && |s.numbers| == a.n + 1
  {
    s.finalNumber == Sum(a.numbers, s.numbers[i := true])
  }

  ghost predicate PartyOk(a: Setup, i: nat, s: Chooser)
    requires i < a.n == |a.numbers|
  {
    && RowOk(a.n, s.lists) && RowOk(a.n, s.numbers) && RowOk(a.n, s.choices)
    && s.resets == 0
    && s.list == (if s.lists[a.n] then SortByKey(a.candidates) else a.candidates)
    && CountOk(a, i, s)
    && (s.numbers[i] ==> s.lists[a.n])
    && (s.trentKey.Some? ==> s.trentKey == Agreed(a))
    && (s.numbers[a.n] && a.candidates != [] ==> s.trentKey.Some?)
    && (s.signing <==> s.choices[a.n])
    && (s.choices[i] ==> s.numbers[a.n] && s.trentKey.Some?)
  }

  /** A party that has finished round 1 with the agreed third party. */
  ghost predicate Finished(a: Setup, s: Chooser) {
    a.n < |s.numbers| && s.numbers[a.n] && s.trentKey.Some? && s.trentKey == Agreed(a)
  }

  /** What a message says about the party that sent it. */
  ghost predicate Truthful(a: Setup, j: nat, s: Chooser, m: Message)
    requires j < |a.numbers|
  {
    && m.from == j
    && match m
       case Candidates(_, list) => list == a.candidates
       case Number(_, number) => number == a.numbers[j] && j < |s.numbers| && s.numbers[j]
       case Choice(_, key) => Some(key) == Agreed(a) && Finished(a, s)
  }

  ghost predicate MessageOk(a: Setup, g: Global, m: Message) {
    m.from < a.n == |a.numbers| == |g.parties| && Truthful(a, m.from, g.parties[m.from], m)
  }

  ghost predicate Inv(a: Setup, g: Global) {
    && ValidSetup(a) && |g.parties| == a.n
    && (forall i :: 0 <= i < a.n ==> PartyOk(a, i, g.parties[i]))
    && (forall m :: m in g.net ==> MessageOk(a, g, m))
    && (forall i, j :: 0 <= i < a.n && 0 <= j < a.n && g.parties[i].choices[j] ==> Finished(a, g.parties[j]))
  }

  /** What others can rely on once they heard of it: it stays. */
  ghost predicate Grows(a: Setup, s: Chooser, s': Chooser) {
    && |s.numbers| == |s'.numbers| == a.n + 1
    && (forall j :: 0 <= j <= a.n && s.numbers[j] ==> s'.numbers[j])
    && (s.trentKey.Some? ==> s'.trentKey == s.trentKey)
  }

  /** A row has only its last slot open when everybody was heard and it was not closed yet. */
  lemma RowComplete(n: nat, row: Row, j: nat)
    requires RowOk(n, row) && j < n && FirstMissing(row) != -1
    ensures !row[n] && RowOk(n, Mark(row, j)) && !Mark(row, j)[n]
    ensures FirstMissing(Mark(row, j)) == n ==> RowOk(n, Mark(Mark(row, j), n)) && Mark(Mark(row, j), n)[n]
  {
  }

  lemma StartKeeps(a: Setup, i: nat, s: Chooser)
    requires i < a.n == |a.numbers| && PartyOk(a, i, s) && !s.lists[i]
    ensures var o := Send(ConfigOf(a, i), s);
            && o.ok && PartyOk(a, i, o.party) && Grows(a, s, o.party) && o.party.choices == s.choices
            && forall m :: m in o.sent ==> Truthful(a, i, o.party, m)
  {
  }

  lemma CandidatesKeeps(a: Setup, i: nat, s: Chooser, j: nat)
    requires i < a.n == |a.numbers| && PartyOk(a, i, s) && j < a.n
    ensures var o := OnCandidates(ConfigOf(a, i), s, j, a.candidates);
            && o.ok && PartyOk(a, i, o.party) && Grows(a, s, o.party) && o.party.choices == s.choices
            && forall m :: m in o.sent ==> Truthful(a, i, o.party, m)
  {
    if FirstMissing(s.lists) != -1 {
      FilterSame(a.candidates);
      RowComplete(a.n, s.lists, j);
      assert !s.numbers[a.n];
      assert s.numbers[i := true][i := true] == s.numbers[i := true];
    }
  }

  /** Another party's number is added to the sum. */
  lemma CountOther(numbers: seq<int>, row: Row, i: nat, j: nat)
    requires |row| == |numbers| + 1 && i < |numbers| && j < |numbers| && i != j && !row[j]
    ensures Sum(numbers, row[j := true][i := true]) == Sum(numbers, row[i := true]) + numbers[j]
  {
    SumMark(numbers, row[i := true], j);
    assert row[i := true][j := true] == row[j := true][i := true];
  }

  /** What counting a number does, the sender's own included. */
  lemma HeardNumberKeeps(a: Setup, i: nat, s: Chooser, j: nat)
    requires i < a.n == |a.numbers| && PartyOk(a, i, s) && j < a.n && (j == i ==> s.numbers[i])
    requires FirstMissing(s.numbers) != -1
    ensures var s1 := HeardNumber(s, j, a.numbers[j]);
            && s1 == s.(numbers := Mark(s.numbers, j), finalNumber := s1.finalNumber)
            && PartyOk(a, i, s1) && !s1.numbers[a.n]
  {
    RowComplete(a.n, s.numbers, j);
    if s.numbers[j] {
      assert s.numbers[j := true] == s.numbers;
    } else {
      CountOther(a.numbers, s.numbers, i, j);
    }
  }

  /** Who has only the last slot open has counted every number. */
  lemma AllNumbersHeard(a: Setup, i: nat, s: Chooser)
    requires i < a.n == |a.numbers| && PartyOk(a, i, s) && FirstMissing(s.numbers) == a.n
    ensures s.finalNumber == Total(a.numbers) && RowOk(a.n, Mark(s.numbers, a.n)) && s.numbers[i]
  {
    SumAll(a.numbers, s.numbers[i := true]);
  }

  /** The choice of a party that has all numbers. */
  lemma PickKeeps(a: Setup, i: nat, s: Chooser)
    requires i < a.n == |a.numbers| && RowOk(a.n, s.numbers) && s.numbers[a.n] && s.finalNumber == Total(a.numbers)
    requires PartyOk(a, i, s.(numbers := s.numbers[a.n := false]))
    ensures var o := Pick(ConfigOf(a, i), s);
            && o.ok && PartyOk(a, i, o.party) && o.party.numbers == s.numbers
            && (s.trentKey.Some? ==> o.party.trentKey == s.trentKey)
            && (forall k :: 0 <= k < a.n && o.party.choices[k] ==> s.choices[k] || (k == i && Finished(a, o.party)))
            && forall m :: m in o.sent ==> Truthful(a, i, o.party, m)
  {
    SumAll(a.numbers, s.numbers[i := true]);
  }

  lemma NumberKeeps(a: Setup, i: nat, s: Chooser, j: nat)
    requires i < a.n == |a.numbers| && PartyOk(a, i, s) && j < a.n && (j == i ==> s.numbers[i])
    ensures var o := OnNumber(ConfigOf(a, i), s, j, a.numbers[j]);
            && o.ok && PartyOk(a, i, o.party) && Grows(a, s, o.party)
            && (forall k :: 0 <= k < a.n && o.party.choices[k] ==> s.choices[k] || (k == i && Finished(a, o.party)))
            && forall m :: m in o.sent ==> Truthful(a, i, o.party, m)
  {
    if FirstMissing(s.numbers) != -1 {
      HeardNumberKeeps(a, i, s, j);
      var s1 := HeardNumber(s, j, a.numbers[j]);
      if FirstMissing(s1.numbers) == a.n {
        var s2 := s1.(numbers := Mark(s1.numbers, a.n));
        assert s2.numbers[a.n := false] == s1.numbers;
        AllNumbersHeard(a, i, s1);
        PickKeeps(a, i, s2);
      }
    }
  }

  lemma ChoiceKeeps(a: Setup, i: nat, s: Chooser, j: nat, key: User)
    requires i < a.n == |a.numbers| && PartyOk(a, i, s) && j < a.n && Some(key) == Agreed(a)
    requires j == i ==> Finished(a, s)
    ensures var o := OnChoice(ConfigOf(a, i), s, j, key);
            && o.ok && o.sent == [] && PartyOk(a, i, o.party) && Grows(a, s, o.party)
            && forall k :: 0 <= k < a.n && o.party.choices[k] ==> s.choices[k] || k == j
  {
    if FirstMissing(s.choices) != -1 { RowComplete(a.n, s.choices, j); }
  }

  /** Any event keeps the party it happens to in order. */
  lemma ReactionKeeps(a: Setup, g: Global, e: Event)
    requires Inv(a, g) && Enabled(a, g, e)
    ensures var o := Reaction(a, g, e);
            && o.ok && PartyOk(a, e.i, o.party) && Grows(a, g.parties[e.i], o.party)
            && (forall m :: m in o.sent ==> Truthful(a, e.i, o.party, m))
            && forall k :: 0 <= k < a.n && o.party.choices[k] ==>
                 g.parties[e.i].choices[k] || (k == e.i && Finished(a, o.party)) || Finished(a, g.parties[k])
  {
    match e
    case Start(i) => StartKeeps(a, i, g.parties[i]);
    case Deliver(i, m) =>
      assert MessageOk(a, g, m);
      match m
      case Candidates(j, _) => CandidatesKeeps(a, i, g.parties[i], j);
      case Number(j, _) => NumberKeeps(a, i, g.parties[i], j);
      case Choice(j, key) => ChoiceKeeps(a, i, g.parties[i], j, key);
  }

  lemma StaysTruthful(a: Setup, j: nat, s: Chooser, s': Chooser, m: Message)
    requires j < a.n == |a.numbers| && Truthful(a, j, s, m) && Grows(a, s, s')
    ensures Truthful(a, j, s', m)
  {
  }

  /** What other parties can rely on after an event at party i. */
  lemma OthersKeep(a: Setup, g: Global, i: nat, s: Chooser)
    requires Inv(a, g) && i < a.n && Grows(a, g.parties[i], s)
    ensures var parties := g.parties[i := s];
            && (forall j :: 0 <= j < a.n && Finished(a, g.parties[j]) ==> Finished(a, parties[j]))
            && (forall m :: m in g.net ==> Truthful(a, m.from, parties[m.from], m))
  {
    forall m | m in g.net ensures Truthful(a, m.from, g.parties[i := s][m.from], m) {
      assert MessageOk(a, g, m);
      if m.from == i { StaysTruthful(a, i, g.parties[i], s, m); }
    }
  }

  lemma ChoicesKeep(a: Setup, g: Global, i: nat, s: Chooser)
    requires Inv(a, g) && i < a.n && PartyOk(a, i, s)
    requires forall j :: 0 <= j < a.n && Finished(a, g.parties[j]) ==> Finished(a, g.parties[i := s][j])
    requires forall k :: 0 <= k < a.n && s.choices[k] ==>
               g.parties[i].choices[k] || (k == i && Finished(a, s)) || Finished(a, g.parties[k])
    ensures var parties := g.parties[i := s];
            forall j, k :: 0 <= j < a.n && 0 <= k < a.n ==>
              |parties[j].choices| == a.n + 1 && (parties[j].choices[k] ==> Finished(a, parties[k]))
  {
    var parties := g.parties[i := s];
    forall j, k | 0 <= j < a.n && 0 <= k < a.n
      ensures |parties[j].choices| == a.n + 1 && (parties[j].choices[k] ==> Finished(a, parties[k]))
    {
      assert PartyOk(a, j, g.parties[j]);
      if parties[j].choices[k] && j != i { assert g.parties[j].choices[k]; }
    }
  }

  /** Every event keeps the invariant. */
  lemma NextKeeps(a: Setup, g: Global, e: Event)
    requires Inv(a, g)
    ensures Inv(a, Next(a, g, e))
  {
    if Enabled(a, g, e) {
      ReactionKeeps(a, g, e);
      var s := Reaction(a, g, e).party;
      OthersKeep(a, g, e.i, s);
      var g' := Next(a, g, e);
      forall m | m in g'.net ensures MessageOk(a, g', m) {
        if m in g.net { assert MessageOk(a, g, m); }
      }
      ChoicesKeep(a, g, e.i, s);
    }
  }

  lemma InitInv(a: Setup)
    requires ValidSetup(a)
    ensures Inv(a, Init(a))
  {
    var g := Init(a);
    forall i: nat | i < a.n ensures PartyOk(a, i, g.parties[i]) {
      SumNone(a.numbers, Missing(a.n + 1));
      SumMark(a.numbers, Missing(a.n + 1), i);
    }
  }

  /** The network after any sequence of events; events that cannot happen are skipped. */
  ghost function Run(a: Setup, events: seq<Event>): (g: Global)
    requires ValidSetup(a)
    ensures |g.parties| == a.n
    decreases |events|
  {
    if events == [] then Init(a) else Next(a, Run(a, events[..|events| - 1]), events[|events| - 1])
  }

  /** The invariant holds in every reachable state. */
  lemma {:induction false} RunKeeps(a: Setup, events: seq<Event>)
    requires ValidSetup(a)
    ensures Inv(a, Run(a, events))
    decreases |events|
  {
    if events == [] {
      InitInv(a);
    } else {
      RunKeeps(a, events[..|events| - 1]);
      NextKeeps(a, Run(a, events[..|events| - 1]), events[|events| - 1]);
    }
  }

  /**
   * Two parties that have finished round 1 counted every number exactly once, hold the same list and have the same
   * third party, whatever the order and repetition of messages.
   */
  lemma SameTrent(a: Setup, events: seq<Event>, i: nat, j: nat)
    requires ValidSetup(a) && i < a.n && j < a.n
    requires var g := Run(a, events);
             RoundOneDone(a, g.parties[i]) && RoundOneDone(a, g.parties[j])
    ensures var g := Run(a, events);
            && g.parties[i].finalNumber == g.parties[j].finalNumber == Total(a.numbers)
            && g.parties[i].list == g.parties[j].list == SortByKey(a.candidates)
            && g.parties[i].trentKey == g.parties[j].trentKey == Agreed(a)
            && (Agreed(a).Some? ==> Agreed(a).value in a.candidates)
  {
    RunKeeps(a, events);
    SortByKeySorts(a.candidates);
    assert Agreed(a).Some? ==> Agreed(a).value in multiset(SortByKey(a.candidates));
    var g := Run(a, events);
    FinishedParty(a, i, g.parties[i]);
    FinishedParty(a, j, g.parties[j]);
  }

  ghost predicate RoundOneDone(a: Setup, s: Chooser) {
    a.n < |s.numbers| && s.numbers[a.n]
  }

  lemma FinishedParty(a: Setup, i: nat, s: Chooser)
    requires i < a.n == |a.numbers| && PartyOk(a, i, s) && s.numbers[a.n]
    ensures s.finalNumber == Total(a.numbers) && s.list == SortByKey(a.candidates) && s.trentKey == Agreed(a)
  {
    SumAll(a.numbers, s.numbers[i := true]);
  }

  /** Neither of the two branches that start over is ever taken. */
  lemma NeverStartsOver(a: Setup, events: seq<Event>, i: nat)
    requires ValidSetup(a) && i < a.n
    ensures Run(a, events).parties[i].resets == 0
  {
    RunKeeps(a, events);
    assert PartyOk(a, i, Run(a, events).parties[i]);
  }

  /** A party goes on to signing only when every party has finished with the same third party. */
  lemma SigningMeansAgreed(a: Setup, events: seq<Event>, i: nat, j: nat)
    requires ValidSetup(a) && i < a.n && j < a.n && Run(a, events).parties[i].signing
    ensures var g := Run(a, events);
            && Finished(a, g.parties[j]) && g.parties[i].trentKey == g.parties[j].trentKey
  {
    RunKeeps(a, events);
    var g := Run(a, events);
    assert PartyOk(a, i, g.parties[i]);
    assert g.parties[i].choices[j] && g.parties[i].choices[i];
  }
}
