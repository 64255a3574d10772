/** What the steps of choosing Trent do when the parties list different users, and what starting over leads to. */
module ChooseTrentSteps {
  import opened Wrappers
  import opened ChooseTrent

  // ----- lists that differ -----

  /** With this message everybody's list has come, and the row was not closed yet. */
  ghost predicate LastList(c: Config, s: Chooser, j: nat) {
    |s.lists| == c.n + 1 && !s.lists[c.n] && forall k :: 0 <= k < c.n ==> s.lists[k] || k == j
  }

  lemma LastListExactly(c: Config, s: Chooser, j: nat)
    requires |s.lists| == c.n + 1 && j < c.n
    ensures FirstMissing(Mark(s.lists, j)) == c.n <==> LastList(c, s, j)
  {
    var row := Mark(s.lists, j);
    assert forall k :: 0 <= k <= c.n ==> (row[k] <==> s.lists[k] || k == j);
    if LastList(c, s, j) { assert !row[c.n] && FirstMissing(row) >= 0; }
  }

  /** What a list does to a party that still waits for lists; `kept` is what the other one leaves of its own. */
  ghost predicate ListTaken(c: Config, s: Chooser, j: nat, kept: seq<User>, o: Outcome) {
    && o.ok && o.party.lists == (if LastList(c, s, j) then Mark(Mark(s.lists, j), c.n) else Mark(s.lists, j))
    && multiset(o.party.list) == multiset(kept)
    && if LastList(c, s, j)
       then Sorted(o.party.list) && o.sent == [Number(c.me, c.random)] && o.party.numbers == Mark(s.numbers, c.me)
       else o.party.list == kept && o.sent == [] && o.party.numbers == s.numbers
  }

  /**
   * Whatever the two lists are: the call returns exactly if the other one's length divides the party's, keeps window
   * by window what agrees somewhere, and sorts the list and sends the number exactly with the last list. When it
   * throws, nobody counts as heard.
   */
  lemma CandidatesExactly(c: Config, s: Chooser, j: nat, other: seq<User>)
    requires |s.lists| == c.n + 1 && j < c.n && FirstMissing(s.lists) != -1 && other != []
    ensures var o := OnCandidates(c, s, j, other);
            && (o.ok <==> |s.list| % |other| == 0)
            && (o.ok ==> ListTaken(c, s, j, Windowed(s.list, other), o))
            && (!o.ok ==> o.sent == [] && o.party == s.(list := o.party.list))
  {
    assert [] + s.list == s.list && [] + Windowed(s.list, other) == Windowed(s.list, other);
    FilterIsWindowed([], s.list, other);
    FilterExactly(s.list, other);
    LastListExactly(c, s, j);
    SortByKeySorts(Windowed(s.list, other));
  }

  // ----- when a party starts over -----

  /** A choice makes a party start over exactly if it still waits for choices and knows another third party. */
  lemma ChoiceStartsOver(c: Config, s: Chooser, j: nat, key: User)
    ensures var o := OnChoice(c, s, j, key);
            o.party.resets > s.resets
            <==> (exists k :: 0 <= k < |s.choices| && !s.choices[k]) && s.trentKey.Some? && s.trentKey.value != key
  {
  }

  /** The last number does exactly if the party was told of another third party than the one it picks. */
  lemma PickStartsOver(c: Config, s: Chooser)
    ensures var o := Pick(c, s);
            o.party.resets > s.resets
            <==> s.list != [] && s.trentKey.Some? && s.trentKey.value != s.list[s.finalNumber % |s.list|]
  {
  }

  /** The rows have no slot left that marks them as complete. */
  ghost predicate Unmarked(c: Config, s: Chooser) {
    |s.lists| == c.n && |s.numbers| == c.n && |s.choices| == c.n
  }

  /** It forgets whom it heard and the third party, keeps list and sum, and sends its list again. */
  lemma StartOverExactly(c: Config, s: Chooser)
    ensures var o := StartOver(c, s);
            && Unmarked(c, o.party) && o.party.trentKey == None && o.party.signing == s.signing
            && o.party.list == s.list && o.party.finalNumber == s.finalNumber && o.party.resets == s.resets + 1
            && (forall j :: 0 <= j < c.n ==> (o.party.lists[j] <==> j == c.me))
            && (forall j :: 0 <= j < c.n ==> !o.party.numbers[j] && !o.party.choices[j])
            && o.ok && o.sent == [Candidates(c.me, s.list)]
  {
  }

  /** Nothing that arrives completes a row again. */
  lemma UnmarkedStep(c: Config, s: Chooser, m: Message)
    requires Unmarked(c, s)
    ensures var o := Notify(c, s, m);
            && Unmarked(c, o.party) && o.party.signing == s.signing
            && forall sent :: sent in o.sent ==> sent.Candidates?
  {
  }

  /** The party after a sequence of messages, and all it sent. */
  function Hear(c: Config, s: Chooser, messages: seq<Message>): (Chooser, seq<Message>) {
    if messages == [] then (s, [])
    else
      var last := |messages| - 1;
      var (before, sent) := Hear(c, s, messages[..last]);
      var o := Notify(c, before, messages[last]);
      (o.party, sent + o.sent)
  }

  /**
   * Starting over leads nowhere: whatever the party hears afterwards, from whomever, it never sends a number or a
   * choice again and never goes on to signing.
   */
  lemma {:induction false} StartedOverForGood(c: Config, s: Chooser, messages: seq<Message>)
    requires !s.signing
    ensures var (s', sent) := Hear(c, StartOver(c, s).party, messages);
            Unmarked(c, s') && !s'.signing && forall m :: m in sent ==> m.Candidates?
    decreases |messages|
  {
    StartOverExactly(c, s);
    if messages != [] {
      var last := |messages| - 1;
      StartedOverForGood(c, s, messages[..last]);
      UnmarkedStep(c, Hear(c, StartOver(c, s).party, messages[..last]).0, messages[last]);
    }
  }
}
