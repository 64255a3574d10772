/** When the parties that choose a third party go on to signing, over all runs. */
module ChooseTrentRuns {
  import opened Wrappers
  import opened ChooseTrent

  /** What reached party i, after it was sent. */
  ghost function Came(a: Setup, events: seq<Event>, i: nat): set<Message>
    requires ValidSetup(a)
    decreases |events|
  {
    if events == [] then {}
    else
      var last := |events| - 1;
      Came(a, events[..last], i) + Arriving(Run(a, events[..last]), events[last], i)
  }

  ghost function Arriving(g: Global, e: Event, i: nat): set<Message> {
    if e.Deliver? && e.i == i && e.m in g.net then {e.m} else {}
  }

  ghost predicate HeardAll(n: nat, row: Row) {
    |row| == n + 1 && forall k :: 0 <= k < n ==> row[k]
  }

  ghost predicate ListsHeed(a: Setup, i: nat, lists: Row, came: set<Message>)
    requires i < a.n && |lists| == a.n + 1
  {
    && (forall j: nat :: j < a.n && Candidates(j, a.candidates) in came ==> lists[j])
    && (Candidates(i, a.candidates) in came && HeardAll(a.n, lists) ==> lists[a.n])
  }

  ghost predicate NumbersHeed(a: Setup, i: nat, numbers: Row, came: set<Message>)
    requires i < a.n == |a.numbers| && |numbers| == a.n + 1
  {
    && (forall j: nat :: j < a.n && Number(j, a.numbers[j]) in came ==> numbers[j])
    && (Number(i, a.numbers[i]) in came && HeardAll(a.n, numbers) ==> numbers[a.n])
  }

  ghost predicate ChoicesHeed(a: Setup, i: nat, choices: Row, came: set<Message>)
    requires i < a.n && |choices| == a.n + 1
  {
    && (forall j: nat, key :: j < a.n && Choice(j, key) in came ==> choices[j])
    && (forall key :: Choice(i, key) in came && HeardAll(a.n, choices) ==> choices[a.n])
  }

  /**
   * Party i keeps track of what came to it, and once its own message of a round came back it has noticed whether the
   * round is complete.
   */
  ghost predicate Heeds(a: Setup, i: nat, s: Chooser, came: set<Message>)
    requires i < a.n == |a.numbers| && PartyOk(a, i, s)
  {
    ListsHeed(a, i, s.lists, came) && NumbersHeed(a, i, s.numbers, came) && ChoicesHeed(a, i, s.choices, came)
  }

  /** What party i has sent. */
  ghost predicate HasSent(a: Setup, i: nat, s: Chooser, net: set<Message>)
    requires i < a.n == |a.numbers| && PartyOk(a, i, s)
  {
    && (s.lists[i] ==> Candidates(i, a.candidates) in net)
    && (s.lists[a.n] ==> Number(i, a.numbers[i]) in net)
    && (s.numbers[a.n] && a.candidates != [] ==> Choice(i, Agreed(a).value) in net)
  }

  /** What a message of a round makes of the row of that round: marked, and closed when complete. */
  function Marked(n: nat, row: Row, j: nat): Row {
    if FirstMissing(row) == -1 then row
    else if FirstMissing(Mark(row, j)) == n then Mark(Mark(row, j), n)
    else Mark(row, j)
  }

  lemma MarkedCloses(n: nat, row: Row, j: nat)
    requires RowOk(n, row) && j < n
    ensures var row' := Marked(n, row, j);
            && RowOk(n, row') && row'[j] && (forall k :: 0 <= k <= n && row[k] ==> row'[k])
            && (HeardAll(n, row') ==> row'[n])
  {
    var row' := Marked(n, row, j);
    if FirstMissing(row) != -1 {
      RowComplete(n, row, j);
      if FirstMissing(Mark(row, j)) != n { assert !HeardAll(n, row'); }
    }
  }

  lemma StartHeeds(a: Setup, i: nat, s: Chooser, came: set<Message>)
    requires i < a.n == |a.numbers| && PartyOk(a, i, s) && Heeds(a, i, s, came) && !s.lists[i]
    ensures var o := Send(ConfigOf(a, i), s);
            PartyOk(a, i, o.party) && Heeds(a, i, o.party, came)
  {
    StartKeeps(a, i, s);
  }

  lemma ListsHeeded(a: Setup, i: nat, row: Row, came: set<Message>, j: nat)
    requires i < a.n && j < a.n && RowOk(a.n, row) && ListsHeed(a, i, row, came)
    ensures |Marked(a.n, row, j)| == a.n + 1
            && ListsHeed(a, i, Marked(a.n, row, j), came + {Candidates(j, a.candidates)})
  {
    MarkedCloses(a.n, row, j);
  }

  /** A list marks its row, and only the completing one marks the party's own number, which it sends. */
  lemma CandidatesMarks(a: Setup, i: nat, s: Chooser, j: nat)
    requires i < a.n == |a.numbers| && PartyOk(a, i, s) && j < a.n
    ensures var o := OnCandidates(ConfigOf(a, i), s, j, a.candidates);
            && o.party.lists == Marked(a.n, s.lists, j) && o.party.choices == s.choices
            && (o.party.numbers == s.numbers || (o.party.numbers == Mark(s.numbers, i) && !s.lists[a.n]))
            && (|o.party.lists| == a.n + 1 && o.party.lists[a.n] && !s.lists[a.n] ==>
                  Number(i, a.numbers[i]) in o.sent)
  {
    FilterSame(a.candidates);
  }

  lemma NumbersStayHeeded(a: Setup, i: nat, s: Chooser, numbers: Row, came: set<Message>, came': set<Message>)
    requires i < a.n == |a.numbers| && PartyOk(a, i, s) && NumbersHeed(a, i, s.numbers, came)
    requires numbers == s.numbers || (numbers == Mark(s.numbers, i) && !s.lists[a.n])
    requires forall m :: m in came' && m.Number? ==> m in came
    ensures NumbersHeed(a, i, numbers, came')
  {
  }

  lemma CandidatesHeeds(a: Setup, i: nat, s: Chooser, came: set<Message>, j: nat)
    requires i < a.n == |a.numbers| && PartyOk(a, i, s) && Heeds(a, i, s, came) && j < a.n
    ensures var o := OnCandidates(ConfigOf(a, i), s, j, a.candidates);
            PartyOk(a, i, o.party) && Heeds(a, i, o.party, came + {Candidates(j, a.candidates)})
  {
    CandidatesKeeps(a, i, s, j);
    CandidatesMarks(a, i, s, j);
    ListsHeeded(a, i, s.lists, came, j);
    var o := OnCandidates(ConfigOf(a, i), s, j, a.candidates);
    NumbersStayHeeded(a, i, s, o.party.numbers, came, came + {Candidates(j, a.candidates)});
  }

  lemma PickMarks(a: Setup, i: nat, s: Chooser)
    requires i < a.n == |a.numbers| && Pick(ConfigOf(a, i), s).party.resets == s.resets
    ensures var o := Pick(ConfigOf(a, i), s);
            && o.party.numbers == s.numbers && o.party.lists == s.lists
            && (o.party.choices == s.choices || o.party.choices == Mark(s.choices, i))
  {
  }

  /** A number marks its row, and only the completing one marks the party's own choice. */
  lemma NumberMarks(a: Setup, i: nat, s: Chooser, j: nat)
    requires i < a.n == |a.numbers| && PartyOk(a, i, s) && j < a.n && (j == i ==> s.numbers[i])
    ensures var o := OnNumber(ConfigOf(a, i), s, j, a.numbers[j]);
            && o.party.numbers == Marked(a.n, s.numbers, j) && o.party.lists == s.lists
            && (o.party.choices == s.choices || (o.party.choices == Mark(s.choices, i) && !s.numbers[a.n]))
  {
    NumberKeeps(a, i, s, j);
    if FirstMissing(s.numbers) != -1 {
      HeardNumberKeeps(a, i, s, j);
      var s1 := HeardNumber(s, j, a.numbers[j]);
      if FirstMissing(s1.numbers) == a.n { PickMarks(a, i, s1.(numbers := Mark(s1.numbers, a.n))); }
    }
  }

  lemma ChoicesStayHeeded(a: Setup, i: nat, s: Chooser, choices: Row, came: set<Message>, came': set<Message>)
    requires i < a.n == |a.numbers| && PartyOk(a, i, s) && ChoicesHeed(a, i, s.choices, came)
    requires choices == s.choices || (choices == Mark(s.choices, i) && !s.numbers[a.n])
    requires forall m :: m in came' && m.Choice? ==> m in came
    ensures ChoicesHeed(a, i, choices, came')
  {
  }

  lemma NumbersHeeded(a: Setup, i: nat, row: Row, came: set<Message>, j: nat)
    requires i < a.n == |a.numbers| && j < a.n && RowOk(a.n, row) && NumbersHeed(a, i, row, came)
    ensures |Marked(a.n, row, j)| == a.n + 1
            && NumbersHeed(a, i, Marked(a.n, row, j), came + {Number(j, a.numbers[j])})
  {
    MarkedCloses(a.n, row, j);
  }

  lemma NumberHeeds(a: Setup, i: nat, s: Chooser, came: set<Message>, j: nat)
    requires i < a.n == |a.numbers| && PartyOk(a, i, s) && Heeds(a, i, s, came) && j < a.n && (j == i ==> s.numbers[i])
    ensures var o := OnNumber(ConfigOf(a, i), s, j, a.numbers[j]);
            PartyOk(a, i, o.party) && Heeds(a, i, o.party, came + {Number(j, a.numbers[j])})
  {
    NumberKeeps(a, i, s, j);
    NumberMarks(a, i, s, j);
    NumbersHeeded(a, i, s.numbers, came, j);
    var o := OnNumber(ConfigOf(a, i), s, j, a.numbers[j]);
    ChoicesStayHeeded(a, i, s, o.party.choices, came, came + {Number(j, a.numbers[j])});
  }

  /** The choice that tells the third party is only marked. */
  lemma ToldHeeds(a: Setup, i: nat, s: Chooser, came: set<Message>, j: nat, key: User)
    requires i < a.n == |a.numbers| && PartyOk(a, i, s) && ChoicesHeed(a, i, s.choices, came)
    requires j < a.n && j != i && s.trentKey == None
    ensures ChoicesHeed(a, i, Mark(s.choices, j), came + {Choice(j, key)})
  {
    assert !s.choices[i];
  }

  lemma ChoicesHeeded(a: Setup, i: nat, row: Row, came: set<Message>, j: nat, key: User)
    requires i < a.n && j < a.n && RowOk(a.n, row) && ChoicesHeed(a, i, row, came)
    ensures |Marked(a.n, row, j)| == a.n + 1 && ChoicesHeed(a, i, Marked(a.n, row, j), came + {Choice(j, key)})
  {
    MarkedCloses(a.n, row, j);
  }

  lemma ChoiceMarks(a: Setup, i: nat, s: Chooser, j: nat, key: User)
    requires i < a.n == |a.numbers| && PartyOk(a, i, s) && j < a.n && Some(key) == Agreed(a)
    ensures var o := OnChoice(ConfigOf(a, i), s, j, key);
            && o.party.lists == s.lists && o.party.numbers == s.numbers
            && o.party.choices ==
               if FirstMissing(s.choices) != -1 && s.trentKey == None then Mark(s.choices, j)
               else Marked(a.n, s.choices, j)
  {
  }

  lemma RowsStayHeeded(a: Setup, i: nat, s: Chooser, came: set<Message>, came': set<Message>)
    requires i < a.n == |a.numbers| && PartyOk(a, i, s)
    requires ListsHeed(a, i, s.lists, came) && NumbersHeed(a, i, s.numbers, came)
    requires forall m :: m in came' && !m.Choice? ==> m in came
    ensures ListsHeed(a, i, s.lists, came') && NumbersHeed(a, i, s.numbers, came')
  {
  }

  lemma ChoiceHeeds(a: Setup, i: nat, s: Chooser, came: set<Message>, j: nat, key: User)
    requires i < a.n == |a.numbers| && PartyOk(a, i, s) && Heeds(a, i, s, came) && j < a.n
    requires Some(key) == Agreed(a) && (j == i ==> Finished(a, s))
    ensures var o := OnChoice(ConfigOf(a, i), s, j, key);
            PartyOk(a, i, o.party) && Heeds(a, i, o.party, came + {Choice(j, key)})
  {
    ChoiceKeeps(a, i, s, j, key);
    ChoiceMarks(a, i, s, j, key);
    if s.trentKey == None { ToldHeeds(a, i, s, came, j, key); }
    ChoicesHeeded(a, i, s.choices, came, j, key);
    RowsStayHeeded(a, i, s, came, came + {Choice(j, key)});
  }

  /** What party i has sent stays sent, and an event at party i sends what its new rows say. */
  lemma ReactionSends(a: Setup, g: Global, e: Event)
    requires ChooseTrent.Inv(a, g) && Enabled(a, g, e) && e.i < a.n && HasSent(a, e.i, g.parties[e.i], g.net)
    ensures var o := Reaction(a, g, e);
            PartyOk(a, e.i, o.party) && HasSent(a, e.i, o.party, g.net + set m | m in o.sent)
  {
    var s := g.parties[e.i];
    match e
    case Start(i) => StartSends(a, i, s, g.net);
    case Deliver(i, m) =>
      assert MessageOk(a, g, m);
      match m
      case Candidates(j, _) => CandidatesSends(a, g, i, j);
      case Number(j, _) => NumberSends(a, i, s, j, g.net, Reaction(a, g, e));
      case Choice(j, key) =>
        ChoiceKeeps(a, i, s, j, key);
        ChoiceMarks(a, i, s, j, key);
  }

  lemma StartSends(a: Setup, i: nat, s: Chooser, net: set<Message>)
    requires i < a.n == |a.numbers| && PartyOk(a, i, s) && HasSent(a, i, s, net) && !s.lists[i]
    ensures var o := Send(ConfigOf(a, i), s);
            PartyOk(a, i, o.party) && HasSent(a, i, o.party, net + set m | m in o.sent)
  {
    StartKeeps(a, i, s);
  }

  lemma CandidatesSends(a: Setup, g: Global, i: nat, j: nat)
    requires ChooseTrent.Inv(a, g) && i < a.n && j < a.n && HasSent(a, i, g.parties[i], g.net)
    requires Candidates(j, a.candidates) in g.net
    ensures var o := OnCandidates(ConfigOf(a, i), g.parties[i], j, a.candidates);
            PartyOk(a, i, o.party) && HasSent(a, i, o.party, g.net + set m | m in o.sent)
  {
    var s := g.parties[i];
    CandidatesKeeps(a, i, s, j);
    CandidatesMarks(a, i, s, j);
    assert Marked(a.n, s.lists, j)[i] ==> s.lists[i] || i == j;
  }

  /** The number that completes the row makes the party send its choice. */
  lemma NumberChooses(a: Setup, i: nat, s: Chooser, j: nat, o: Outcome)
    requires i < a.n == |a.numbers| && PartyOk(a, i, s) && j < a.n && (j == i ==> s.numbers[i]) && a.candidates != []
    requires o == OnNumber(ConfigOf(a, i), s, j, a.numbers[j])
    ensures PartyOk(a, i, o.party) && (o.party.numbers[a.n] && !s.numbers[a.n] ==> Choice(i, Agreed(a).value) in o.sent)
  {
    NumberKeeps(a, i, s, j);
    if o.party.numbers[a.n] && !s.numbers[a.n] {
      assert |o.sent| == 1 && o.sent[0].Choice?;
      assert Truthful(a, i, o.party, o.sent[0]);
    }
  }

  lemma NumberSends(a: Setup, i: nat, s: Chooser, j: nat, net: set<Message>, o: Outcome)
    requires i < a.n == |a.numbers| && PartyOk(a, i, s) && HasSent(a, i, s, net) && j < a.n && (j == i ==> s.numbers[i])
    requires o == OnNumber(ConfigOf(a, i), s, j, a.numbers[j])
    ensures PartyOk(a, i, o.party) && HasSent(a, i, o.party, net + set m | m in o.sent)
  {
    NumberKeeps(a, i, s, j);
    NumberMarks(a, i, s, j);
    if a.candidates != [] { NumberChooses(a, i, s, j, o); }
  }

  lemma ReactionHeeds(a: Setup, g: Global, e: Event, came: set<Message>)
    requires ChooseTrent.Inv(a, g) && Enabled(a, g, e) && e.i < a.n && Heeds(a, e.i, g.parties[e.i], came)
    ensures var o := Reaction(a, g, e);
            PartyOk(a, e.i, o.party) && Heeds(a, e.i, o.party, came + Arriving(g, e, e.i))
  {
    var s := g.parties[e.i];
    match e
    case Start(i) => StartHeeds(a, i, s, came);
    case Deliver(i, m) =>
      assert MessageOk(a, g, m);
      match m
      case Candidates(j, _) => CandidatesHeeds(a, i, s, came, j);
      case Number(j, _) => NumberHeeds(a, i, s, came, j);
      case Choice(j, key) => ChoiceHeeds(a, i, s, came, j, key);
  }

  // ----- all runs -----

  lemma {:induction false} RunHeeds(a: Setup, events: seq<Event>, i: nat)
    requires ValidSetup(a) && i < a.n
    ensures var g := Run(a, events);
            && PartyOk(a, i, g.parties[i])
            && Heeds(a, i, g.parties[i], Came(a, events, i)) && HasSent(a, i, g.parties[i], g.net)
    decreases |events|
  {
    ChooseTrent.RunKeeps(a, events);
    assert PartyOk(a, i, Run(a, events).parties[i]);
    if events != [] {
      var before, e := events[..|events| - 1], events[|events| - 1];
      var g := Run(a, before);
      RunHeeds(a, before, i);
      ChooseTrent.RunKeeps(a, before);
      if Enabled(a, g, e) && e.i == i {
        ReactionHeeds(a, g, e, Came(a, before, i));
        ReactionSends(a, g, e);
      } else {
        assert Arriving(g, e, i) == {};
      }
    }
  }

  ghost predicate ChoiceCame(came: set<Message>, j: nat) {
    exists key :: Choice(j, key) in came
  }

  /** A party to which every choice came, its own included, goes on to signing, in whatever order all messages came. */
  lemma SignsWithChoices(a: Setup, events: seq<Event>, i: nat)
    requires ValidSetup(a) && i < a.n
    requires forall j: nat :: j < a.n ==> ChoiceCame(Came(a, events, i), j)
    ensures Run(a, events).parties[i].signing
  {
    RunHeeds(a, events, i);
    AllChoicesCame(a, i, Run(a, events).parties[i], Came(a, events, i));
  }

  lemma AllChoicesCame(a: Setup, i: nat, s: Chooser, came: set<Message>)
    requires i < a.n == |a.numbers| && PartyOk(a, i, s) && ChoicesHeed(a, i, s.choices, came)
    requires forall j: nat :: j < a.n ==> ChoiceCame(came, j)
    ensures s.signing
  {
    assert ChoiceCame(came, i);
    forall j: nat | j < a.n ensures s.choices[j] { assert ChoiceCame(came, j); }
    assert HeardAll(a.n, s.choices);
  }

  /** Everything that was sent came to everybody, the sender included. */
  ghost predicate AllCame(a: Setup, events: seq<Event>)
    requires ValidSetup(a)
  {
    forall i: nat :: i < a.n ==> Run(a, events).net <= Came(a, events, i)
  }

  ghost predicate Started(a: Setup, events: seq<Event>, i: nat)
    requires ValidSetup(a) && i < a.n
  {
    i < |Run(a, events).parties[i].lists| && Run(a, events).parties[i].lists[i]
  }

  lemma ListsClose(a: Setup, events: seq<Event>, i: nat)
    requires ValidSetup(a) && AllCame(a, events) && i < a.n && forall j: nat :: j < a.n ==> Started(a, events, j)
    ensures PartyOk(a, i, Run(a, events).parties[i]) && Run(a, events).parties[i].lists[a.n]
  {
    forall j: nat | j < a.n ensures Candidates(j, a.candidates) in Came(a, events, i) {
      assert Started(a, events, j);
      RunHeeds(a, events, j);
    }
    RunHeeds(a, events, i);
    assert HeardAll(a.n, Run(a, events).parties[i].lists);
  }

  lemma NumbersClose(a: Setup, events: seq<Event>, i: nat)
    requires ValidSetup(a) && AllCame(a, events) && i < a.n && forall j: nat :: j < a.n ==> Started(a, events, j)
    ensures PartyOk(a, i, Run(a, events).parties[i]) && Run(a, events).parties[i].numbers[a.n]
  {
    forall j: nat | j < a.n ensures Number(j, a.numbers[j]) in Came(a, events, i) {
      ListsClose(a, events, j);
      RunHeeds(a, events, j);
    }
    RunHeeds(a, events, i);
    assert HeardAll(a.n, Run(a, events).parties[i].numbers);
  }

  /** When every party has started and everything came to everybody, everybody goes on to signing. */
  lemma EveryoneSigns(a: Setup, events: seq<Event>, i: nat)
    requires ValidSetup(a) && a.candidates != [] && AllCame(a, events)
    requires i < a.n && forall j: nat :: j < a.n ==> Started(a, events, j)
    ensures Run(a, events).parties[i].signing
  {
    forall j: nat | j < a.n ensures ChoiceCame(Came(a, events, i), j) {
      NumbersClose(a, events, j);
      RunHeeds(a, events, j);
      assert Choice(j, Agreed(a).value) in Came(a, events, i);
    }
    SignsWithChoices(a, events, i);
  }

  // ----- who stalls when its own message does not come back -----

  /** Who has all numbers has marked itself, and it has marked another party only when that one's choice came. */
  ghost predicate MarksFit(a: Setup, i: nat, s: Chooser, came: set<Message>)
    requires i < a.n == |a.numbers| && PartyOk(a, i, s)
  {
    && (s.numbers[a.n] && a.candidates != [] ==> s.choices[i])
    && forall j: nat :: j < a.n && j != i && s.choices[j] ==> ChoiceCame(came, j)
  }

  lemma NumberPicks(a: Setup, i: nat, s: Chooser, j: nat, o: Outcome)
    requires i < a.n == |a.numbers| && PartyOk(a, i, s) && j < a.n && (j == i ==> s.numbers[i]) && a.candidates != []
    requires o == OnNumber(ConfigOf(a, i), s, j, a.numbers[j])
    ensures PartyOk(a, i, o.party) && (o.party.numbers[a.n] && !s.numbers[a.n] ==> o.party.choices[i])
  {
    NumberKeeps(a, i, s, j);
    if FirstMissing(s.numbers) != -1 { HeardNumberKeeps(a, i, s, j); }
  }

  lemma NumberFits(a: Setup, i: nat, s: Chooser, j: nat, came: set<Message>, o: Outcome)
    requires i < a.n == |a.numbers| && PartyOk(a, i, s) && j < a.n && (j == i ==> s.numbers[i])
    requires MarksFit(a, i, s, came) && o == OnNumber(ConfigOf(a, i), s, j, a.numbers[j])
    ensures PartyOk(a, i, o.party) && MarksFit(a, i, o.party, came)
  {
    NumberKeeps(a, i, s, j);
    NumberMarks(a, i, s, j);
    if a.candidates != [] { NumberPicks(a, i, s, j, o); }
  }

  lemma ChoiceFits(a: Setup, i: nat, s: Chooser, m: Message, came: set<Message>, o: Outcome)
    requires i < a.n == |a.numbers| && PartyOk(a, i, s) && MarksFit(a, i, s, came)
    requires m.Choice? && m.from < a.n && Some(m.key) == Agreed(a) && (m.from == i ==> Finished(a, s))
    requires o == OnChoice(ConfigOf(a, i), s, m.from, m.key)
    ensures PartyOk(a, i, o.party) && MarksFit(a, i, o.party, came + {m})
  {
    ChoiceKeeps(a, i, s, m.from, m.key);
    ChoiceMarks(a, i, s, m.from, m.key);
    MarkedCloses(a.n, s.choices, m.from);
    forall j: nat | j < a.n && j != i && o.party.choices[j] ensures ChoiceCame(came + {m}, j) {
      if j == m.from { assert Choice(j, m.key) in came + {m}; } else { assert ChoiceCame(came, j); }
    }
  }

  lemma ReactionFits(a: Setup, g: Global, e: Event, came: set<Message>)
    requires ChooseTrent.Inv(a, g) && Enabled(a, g, e) && e.i < a.n && MarksFit(a, e.i, g.parties[e.i], came)
    ensures var o := Reaction(a, g, e);
            PartyOk(a, e.i, o.party) && MarksFit(a, e.i, o.party, came + Arriving(g, e, e.i))
  {
    var s := g.parties[e.i];
    var o := Reaction(a, g, e);
    match e
    case Start(i) => StartKeeps(a, i, s);
    case Deliver(i, m) =>
      assert MessageOk(a, g, m);
      match m
      case Candidates(j, _) =>
        CandidatesKeeps(a, i, s, j);
        CandidatesMarks(a, i, s, j);
        CandidatesFit(a, i, s, o.party, came, came + {m});
      case Number(j, _) =>
        NumberFits(a, i, s, j, came, o);
        CandidatesFit(a, i, o.party, o.party, came, came + {m});
      case Choice(_, _) => ChoiceFits(a, i, s, m, came, o);
  }

  lemma CandidatesFit(a: Setup, i: nat, s: Chooser, s': Chooser, came: set<Message>, came': set<Message>)
    requires i < a.n == |a.numbers| && PartyOk(a, i, s) && PartyOk(a, i, s') && MarksFit(a, i, s, came)
    requires s'.choices == s.choices && (s'.numbers[a.n] ==> s.numbers[a.n]) && came <= came'
    ensures MarksFit(a, i, s', came')
  {
    forall j: nat | j < a.n && j != i && s'.choices[j] ensures ChoiceCame(came', j) {
      assert ChoiceCame(came, j);
    }
  }

  lemma {:induction false} RunFits(a: Setup, events: seq<Event>, i: nat)
    requires ValidSetup(a) && i < a.n
    ensures PartyOk(a, i, Run(a, events).parties[i])
            && MarksFit(a, i, Run(a, events).parties[i], Came(a, events, i))
    decreases |events|
  {
    ChooseTrent.RunKeeps(a, events);
    if events != [] {
      var before, e := events[..|events| - 1], events[|events| - 1];
      RunFits(a, before, i);
      ChooseTrent.RunKeeps(a, before);
      if Enabled(a, Run(a, before), e) && e.i == i {
        ReactionFits(a, Run(a, before), e, Came(a, before, i));
      } else {
        assert Arriving(Run(a, before), e, i) == {};
      }
    }
  }

  ghost predicate OthersChose(n: nat, i: nat, came: set<Message>) {
    forall j: nat :: j < n && j != i ==> ChoiceCame(came, j)
  }

  /**
   * Event k brings a choice to party i, which has all numbers by then, and all the others' choices with this one; its
   * own may or may not have come back.
   */
  ghost predicate LastChoice(a: Setup, events: seq<Event>, k: nat, i: nat)
    requires ValidSetup(a) && i < a.n
  {
    && k < |events| && events[k].Deliver? && events[k].i == i && events[k].m.Choice?
    && Enabled(a, Run(a, events[..k]), events[k])
    && a.n < |Run(a, events[..k]).parties[i].numbers| && Run(a, events[..k]).parties[i].numbers[a.n]
    && OthersChose(a.n, i, Came(a, events[..k + 1], i))
  }

  /** A choice that reaches party i when it knows the third party, and leaves it with every choice. */
  ghost predicate WakesNow(a: Setup, g: Global, e: Event, i: nat)
    requires |g.parties| == a.n == |a.numbers| && i < a.n
  {
    && Enabled(a, g, e) && e.Deliver? && e.i == i && e.m.Choice? && g.parties[i].trentKey.Some?
    && HeardAll(a.n, Next(a, g, e).parties[i].choices)
  }

  lemma ChoiceWakes(a: Setup, i: nat, s: Chooser, j: nat, key: User)
    requires i < a.n == |a.numbers| && PartyOk(a, i, s) && j < a.n && Some(key) == Agreed(a)
    requires j == i ==> Finished(a, s)
    ensures var o := OnChoice(ConfigOf(a, i), s, j, key);
            o.party.signing <==> s.signing || (s.trentKey.Some? && HeardAll(a.n, o.party.choices))
  {
    ChoiceKeeps(a, i, s, j, key);
    ChoiceMarks(a, i, s, j, key);
    MarkedCloses(a.n, s.choices, j);
  }

  lemma OthersDoNotWake(a: Setup, i: nat, s: Chooser, j: nat)
    requires i < a.n == |a.numbers| && PartyOk(a, i, s) && j < a.n && (j == i ==> s.numbers[i])
    ensures Send(ConfigOf(a, i), s).party.signing == s.signing
    ensures OnCandidates(ConfigOf(a, i), s, j, a.candidates).party.signing == s.signing
    ensures OnNumber(ConfigOf(a, i), s, j, a.numbers[j]).party.signing == s.signing
  {
  }

  lemma StepWakes(a: Setup, g: Global, e: Event, i: nat)
    requires ChooseTrent.Inv(a, g) && i < a.n
    ensures Next(a, g, e).parties[i].signing <==> g.parties[i].signing || WakesNow(a, g, e, i)
  {
    assert PartyOk(a, i, g.parties[i]);
    if Enabled(a, g, e) && e.Deliver? && e.i == i {
      assert MessageOk(a, g, e.m);
      match e.m
      case Choice(j, key) => ChoiceWakes(a, i, g.parties[i], j, key);
      case Number(j, _) => OthersDoNotWake(a, i, g.parties[i], j);
      case Candidates(j, _) =>
    }
  }

  lemma WakesWithLast(a: Setup, events: seq<Event>, i: nat)
    requires ValidSetup(a) && i < a.n && events != []
    ensures var last := |events| - 1;
            WakesNow(a, Run(a, events[..last]), events[last], i) <==> LastChoice(a, events, last, i)
  {
    var last := |events| - 1;
    var g, e := Run(a, events[..last]), events[last];
    assert events[..last + 1] == events;
    ChooseTrent.RunKeeps(a, events[..last]);
    RunFits(a, events[..last], i);
    RunFits(a, events, i);
    RunHeeds(a, events, i);
    if Enabled(a, g, e) && e.Deliver? && e.i == i && e.m.Choice? {
      assert MessageOk(a, g, e.m);
      ChoiceMarks(a, i, g.parties[i], e.m.from, e.m.key);
      RowsFit(a, i, g.parties[i], Run(a, events).parties[i], Came(a, events, i));
    }
  }

  lemma RowsFit(a: Setup, i: nat, s: Chooser, s': Chooser, came: set<Message>)
    requires i < a.n == |a.numbers| && a.candidates != [] && PartyOk(a, i, s) && PartyOk(a, i, s')
    requires s'.numbers == s.numbers && MarksFit(a, i, s', came) && ChoicesHeed(a, i, s'.choices, came)
    ensures s.trentKey.Some? && HeardAll(a.n, s'.choices)
            <==> s.numbers[a.n] && OthersChose(a.n, i, came)
  {
    if s.numbers[a.n] && OthersChose(a.n, i, came) {
      forall j: nat | j < a.n ensures s'.choices[j] {
        if j != i { assert ChoiceCame(came, j); }
      }
    }
  }

  lemma LastChoiceKept(a: Setup, events: seq<Event>, i: nat)
    requires ValidSetup(a) && i < a.n && events != []
    ensures var last := |events| - 1;
            (exists k :: LastChoice(a, events, k, i))
            <==> LastChoice(a, events, last, i) || exists k :: LastChoice(a, events[..last], k, i)
  {
    var last := |events| - 1;
    forall k: nat | k < last ensures LastChoice(a, events, k, i) <==> LastChoice(a, events[..last], k, i) {
      assert events[..last][..k] == events[..k] && events[..last][..k + 1] == events[..k + 1];
    }
  }

  /**
   * In every run, also one in which messages are lost or never come back to their sender: a party has gone on to
   * signing exactly if some choice, a repeated one or its own also, came when it had all numbers and, with this one,
   * all the others' choices.
   */
  lemma {:induction false} SigningExactly(a: Setup, events: seq<Event>, i: nat)
    requires ValidSetup(a) && i < a.n
    ensures Run(a, events).parties[i].signing <==> exists k :: LastChoice(a, events, k, i)
    decreases |events|
  {
    if events != [] {
      var before := events[..|events| - 1];
      SigningExactly(a, before, i);
      ChooseTrent.RunKeeps(a, before);
      StepWakes(a, Run(a, before), events[|events| - 1], i);
      WakesWithLast(a, events, i);
      LastChoiceKept(a, events, i);
    }
  }
}
