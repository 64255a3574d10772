/** The uncles a miner puts into a block against the validator's rules for them. */
module Uncles {

  type Hash = nat

  datatype Header = Header(hash: Hash, parentHash: Hash)

  datatype Block = Block(header: Header, uncles: seq<Header>)

  /** The hashes of the recent blocks. */
  function Hashes(recent: seq<Block>): set<Hash> {
    set b | b in recent :: b.header.hash
  }

  /** The hashes of the uncles of the recent blocks. */
  function UncleHashes(recent: seq<Block>): set<Hash> {
    set b, u | b in recent && u in b.uncles :: u.hash
  }

  // ----- the validator -----

  datatype Verdict = Valid | TooMany | NotUnique | IsAncestor | ParentNotAncestor | HeaderInvalid

  /** The loop of `VerifyUncles` from a state of its `uncles` set on. */
  function VerifyFrom(seen: set<Hash>, ancestors: set<Hash>, parent: Hash, headerOk: Header -> bool,
                      uncles: seq<Header>): Verdict
    decreases |uncles|
  {
    if uncles == [] then Valid
    else
      var u := uncles[0];
      if u.hash in seen then NotUnique
      else if u.hash in ancestors then IsAncestor
      else if u.parentHash !in ancestors || u.parentHash == parent then ParentNotAncestor
      else if !headerOk(u) then HeaderInvalid
      else VerifyFrom(seen + {u.hash}, ancestors, parent, headerOk, uncles[1..])
  }

  /** `VerifyUncles`; `recent` is what the chain returns for the seven blocks from the parent on. */
  function Verify(recent: seq<Block>, parent: Hash, headerOk: Header -> bool, block: Block): Verdict {
    if |block.uncles| > 2 then TooMany
    else VerifyFrom(UncleHashes(recent) + {block.header.hash}, Hashes(recent) + {block.header.hash},
                    parent, headerOk, block.uncles)
  }

  method VerifyUncles(recent: seq<Block>, parent: Hash, headerOk: Header -> bool, block: Block)
    returns (verdict: Verdict)
    ensures verdict == Verify(recent, parent, headerOk, block)
  {
    if |block.uncles| > 2 { return TooMany; }
    var uncles, ancestors := Family(recent);
    ancestors := ancestors + {block.header.hash};
    uncles := uncles + {block.header.hash};
    for i := 0 to |block.uncles|
      invariant VerifyFrom(uncles, ancestors, parent, headerOk, block.uncles[i..])
             == Verify(recent, parent, headerOk, block)
    {
      var uncle := block.uncles[i];
      assert block.uncles[i..][0] == uncle && block.uncles[i..][1..] == block.uncles[i + 1..];
      if uncle.hash in uncles { return NotUnique; }
      uncles := uncles + {uncle.hash};
      if uncle.hash in ancestors { return IsAncestor; }
      if uncle.parentHash !in ancestors || uncle.parentHash == parent { return ParentNotAncestor; }
      if !headerOk(uncle) { return HeaderInvalid; }
    }
    return Valid;
  }

  /** The loop over the recent blocks, shared by validator and miner. */
  method Family(recent: seq<Block>) returns (uncles: set<Hash>, ancestors: set<Hash>)
    ensures uncles == UncleHashes(recent) && ancestors == Hashes(recent)
  {
    uncles, ancestors := {}, {};
    for i := 0 to |recent|
      invariant uncles == UncleHashes(recent[..i]) && ancestors == Hashes(recent[..i])
    {
      var b := recent[i];
      ancestors := ancestors + {b.header.hash};
      ghost var before := uncles;
      for j := 0 to |b.uncles|
        invariant uncles == before + set u | u in b.uncles[..j] :: u.hash
      {
        uncles := uncles + {b.uncles[j].hash};
      }
      assert b.uncles[..|b.uncles|] == b.uncles;
      assert recent[..i + 1] == recent[..i] + [b];
    }
    assert recent[..|recent|] == recent;
  }

  // ----- the miner -----

  /** The check of `commitUncle` against the sets of the current work. */
  predicate Acceptable(recent: seq<Block>, committed: set<Hash>, u: Header) {
    u.hash !in committed && u.parentHash in Hashes(recent) && u.hash !in Hashes(recent) + UncleHashes(recent)
  }

  /** The sets of one mining cycle. */
  class Work {
    var ancestors: set<Hash>
    var family: set<Hash>
    var uncles: set<Hash>

    ghost predicate For(recent: seq<Block>)
      reads this
    {
      ancestors == Hashes(recent) && family == Hashes(recent) + UncleHashes(recent)
    }

    /** `makeCurrent`. */
    constructor (recent: seq<Block>)
      ensures For(recent) && uncles == {}
    {
      new;
      var recentUncles, recentBlocks := Family(recent);
      ancestors, family, uncles := recentBlocks, recentBlocks + recentUncles, {};
    }

    method CommitUncle(ghost recent: seq<Block>, uncle: Header) returns (ok: bool)
      requires For(recent)
      modifies `uncles
      ensures ok == Acceptable(recent, old(uncles), uncle)
      ensures uncles == if ok then old(uncles) + {uncle.hash} else old(uncles)
    {
      if uncle.hash in uncles { return false; }
      if uncle.parentHash !in ancestors { return false; }
      if uncle.hash in family { return false; }
      uncles := uncles + {uncle.hash};
      return true;
    }
  }

  function HashesOf(uncles: seq<Header>): set<Hash> {
    set u | u in uncles :: u.hash
  }

  /** What the miner's checks guarantee about the list it assembles. */
  ghost predicate WellChosen(recent: seq<Block>, uncles: seq<Header>) {
    && |uncles| <= 2
    && (forall i, j :: 0 <= i < j < |uncles| ==> uncles[i].hash != uncles[j].hash)
    && (forall i :: 0 <= i < |uncles| ==> Acceptable(recent, {}, uncles[i]))
  }

  /** Every candidate looked at is either among the uncles or bad. */
  ghost predicate Sorted(recent: seq<Block>, candidates: map<Hash, Header>, done: set<Hash>, uncles: seq<Header>,
                         badUncles: set<Hash>) {
    && done <= candidates.Keys && badUncles <= done
    && (forall u :: u in uncles ==> u in candidates.Values)
    && (forall h :: h in badUncles ==> !Acceptable(recent, HashesOf(uncles), candidates[h]))
    && (forall h :: h in done - badUncles ==> candidates[h] in uncles)
  }

  /** What the miner's loop may end with: fewer than two uncles only when every candidate was looked at. */
  ghost predicate Chosen(recent: seq<Block>, candidates: map<Hash, Header>, uncles: seq<Header>, badUncles: set<Hash>) {
    && WellChosen(recent, uncles)
    && exists done :: Sorted(recent, candidates, done, uncles, badUncles) && (|uncles| < 2 ==> done == candidates.Keys)
  }

  lemma SortedStep(recent: seq<Block>, candidates: map<Hash, Header>, done: set<Hash>, uncles: seq<Header>,
                   badUncles: set<Hash>, hash: Hash)
    requires Sorted(recent, candidates, done, uncles, badUncles) && hash in candidates && hash !in done
    ensures var u := candidates[hash];
            if Acceptable(recent, HashesOf(uncles), u)
            then Sorted(recent, candidates, done + {hash}, uncles + [u], badUncles)
                 && HashesOf(uncles + [u]) == HashesOf(uncles) + {u.hash}
                 && (WellChosen(recent, uncles) && |uncles| < 2 ==> WellChosen(recent, uncles + [u]))
            else Sorted(recent, candidates, done + {hash}, uncles, badUncles + {hash})
  {
    var u := candidates[hash];
    assert u in candidates.Values;
    assert forall v :: v in uncles + [u] <==> v in uncles || v == u;
    if Acceptable(recent, HashesOf(uncles), u) {
      forall i | 0 <= i < |uncles| ensures uncles[i].hash != u.hash {
        assert uncles[i] in uncles;
        assert uncles[i].hash in HashesOf(uncles);
      }
    }
  }

  class Worker {
    var possibleUncles: map<Hash, Header>

    constructor (possibleUncles: map<Hash, Header>)
      ensures this.possibleUncles == possibleUncles
    {
      this.possibleUncles := possibleUncles;
    }

    /** The uncle loop of `commitNewWork`, for every order in which the map may be iterated. */
    method ChooseUncles(recent: seq<Block>) returns (uncles: seq<Header>, badUncles: set<Hash>)
      ensures Chosen(recent, possibleUncles, uncles, badUncles)
      ensures possibleUncles == old(possibleUncles)
    {
      var work := new Work(recent);
      uncles, badUncles := [], {};
      var rest := possibleUncles.Keys;
      ghost var done := {};
      while rest != {}
        invariant rest == possibleUncles.Keys - done && work.For(recent) && work.uncles == HashesOf(uncles)
        invariant possibleUncles == old(possibleUncles) && fresh(work)
        invariant WellChosen(recent, uncles) && Sorted(recent, possibleUncles, done, uncles, badUncles)
        decreases rest
      {
        if |uncles| == 2 { break; }
        var hash :| hash in rest;
        SortedStep(recent, possibleUncles, done, uncles, badUncles, hash);
        var ok := work.CommitUncle(recent, possibleUncles[hash]);
        if ok {
          uncles := uncles + [possibleUncles[hash]];
        } else {
          badUncles := badUncles + {hash};
        }
        rest, done := rest - {hash}, done + {hash};
      }
      assert |uncles| < 2 ==> done == possibleUncles.Keys;
    }

    /** The bad ones are forgotten; whoever stays is an uncle of the new block or was not looked at. */
    method AssembleUncles(recent: seq<Block>) returns (uncles: seq<Header>)
      modifies this
      ensures WellChosen(recent, uncles)
      ensures forall u :: u in uncles ==> u in old(possibleUncles.Values)
      ensures possibleUncles.Keys <= old(possibleUncles.Keys)
      ensures possibleUncles == map h | h in old(possibleUncles) && h in possibleUncles :: old(possibleUncles)[h]
      ensures forall h :: h in old(possibleUncles.Keys) - possibleUncles.Keys ==>
                !Acceptable(recent, HashesOf(uncles), old(possibleUncles)[h])
      ensures |uncles| < 2 ==> forall h :: h in possibleUncles ==> possibleUncles[h] in uncles
    {
      var badUncles;
      uncles, badUncles := ChooseUncles(recent);
      possibleUncles := possibleUncles - badUncles;
    }
  }

  // ----- miner against validator -----

  /** The rules of `VerifyUncles` stated at once, without its loop. */
  ghost predicate Rules(seen: set<Hash>, ancestors: set<Hash>, parent: Hash, headerOk: Header -> bool,
                        uncles: seq<Header>) {
    && (forall i, j :: 0 <= i < j < |uncles| ==> uncles[i].hash != uncles[j].hash)
    && (forall i :: 0 <= i < |uncles| ==>
          var u := uncles[i];
          u.hash !in seen && u.hash !in ancestors && u.parentHash in ancestors && u.parentHash != parent && headerOk(u))
  }

  lemma {:induction false} VerifyFromRules(seen: set<Hash>, ancestors: set<Hash>, parent: Hash,
                                           headerOk: Header -> bool, uncles: seq<Header>)
    ensures VerifyFrom(seen, ancestors, parent, headerOk, uncles) == Valid
            <==> Rules(seen, ancestors, parent, headerOk, uncles)
    decreases |uncles|
  {
    if uncles != [] {
      var u, rest := uncles[0], uncles[1..];
      VerifyFromRules(seen + {u.hash}, ancestors, parent, headerOk, rest);
      if Rules(seen, ancestors, parent, headerOk, uncles) {
        assert forall i :: 0 <= i < |rest| ==> rest[i] == uncles[i + 1];
      }
      if VerifyFrom(seen, ancestors, parent, headerOk, uncles) == Valid {
        forall i, j | 0 <= i < j < |uncles| ensures uncles[i].hash != uncles[j].hash {
          assert uncles[j] == rest[j - 1];
          if i > 0 { assert uncles[i] == rest[i - 1]; }
        }
        forall i | 0 < i < |uncles| ensures uncles[i] == rest[i - 1] {}
      }
    }
  }

  /**
   * A block with the uncles the miner chose is valid exactly when none of them is the block itself, none is a child
   * of the block's own parent, and their headers are valid: the middle rule is one the miner does not check.
   */
  lemma MinedUnclesExact(recent: seq<Block>, parent: Hash, headerOk: Header -> bool, block: Block)
    requires WellChosen(recent, block.uncles)
    ensures Verify(recent, parent, headerOk, block) == Valid
            <==> forall i :: 0 <= i < |block.uncles| ==>
                   && block.uncles[i].hash != block.header.hash
                   && block.uncles[i].parentHash != parent
                   && headerOk(block.uncles[i])
  {
    var seen, ancestors := UncleHashes(recent) + {block.header.hash}, Hashes(recent) + {block.header.hash};
    VerifyFromRules(seen, ancestors, parent, headerOk, block.uncles);
    forall i | 0 <= i < |block.uncles|
      ensures block.uncles[i].hash !in Hashes(recent) && block.uncles[i].hash !in UncleHashes(recent)
           && block.uncles[i].parentHash in ancestors
    {
      assert Acceptable(recent, {}, block.uncles[i]);
    }
  }

  /**
   * The miner's checks turn away no uncle that the validator would take, in whatever order they are committed, but for
   * a child of the new block itself.
   */
  lemma NoneTurnedAway(recent: seq<Block>, parent: Hash, headerOk: Header -> bool, block: Block, i: nat)
    requires Verify(recent, parent, headerOk, block) == Valid && i < |block.uncles|
    ensures Acceptable(recent, HashesOf(block.uncles[..i]), block.uncles[i])
            <==> block.uncles[i].parentHash != block.header.hash || block.header.hash in Hashes(recent)
    ensures |block.uncles| <= 2
  {
    var seen, ancestors := UncleHashes(recent) + {block.header.hash}, Hashes(recent) + {block.header.hash};
    VerifyFromRules(seen, ancestors, parent, headerOk, block.uncles);
  }

  /** The verdict is that of the first uncle that breaks a rule, by the first rule that it breaks. */
  lemma {:induction false} FirstOffender(seen: set<Hash>, ancestors: set<Hash>, parent: Hash,
                                         headerOk: Header -> bool, uncles: seq<Header>, i: nat)
    requires i < |uncles| && Rules(seen, ancestors, parent, headerOk, uncles[..i])
    requires !Rules(seen, ancestors, parent, headerOk, uncles[..i + 1])
    ensures var u, verdict := uncles[i], VerifyFrom(seen, ancestors, parent, headerOk, uncles);
            && (verdict == NotUnique <==> u.hash in seen || exists j :: 0 <= j < i && uncles[j].hash == u.hash)
            && (verdict == IsAncestor <==> verdict != NotUnique && u.hash in ancestors)
            && (verdict == HeaderInvalid <==> u.hash !in seen && u.hash !in ancestors && u.parentHash in ancestors
                                              && u.parentHash != parent && verdict != NotUnique)
            && verdict != Valid && verdict != TooMany
    decreases i
  {
    assert uncles[..i + 1] == uncles[..i] + [uncles[i]];
    if i > 0 {
      var rest := uncles[1..];
      assert rest[..i - 1] == uncles[..i][1..] && rest[..i] == uncles[..i + 1][1..];
      RulesFromHead(seen, ancestors, parent, headerOk, uncles[..i]);
      RulesFromHead(seen, ancestors, parent, headerOk, uncles[..i + 1]);
      FirstOffender(seen + {uncles[0].hash}, ancestors, parent, headerOk, rest, i - 1);
      assert forall j :: 0 <= j < i - 1 ==> rest[j] == uncles[j + 1];
    }
  }

  lemma RulesFromHead(seen: set<Hash>, ancestors: set<Hash>, parent: Hash, headerOk: Header -> bool,
                      uncles: seq<Header>)
    requires uncles != []
    ensures Rules(seen, ancestors, parent, headerOk, uncles)
            <==> Rules(seen, ancestors, parent, headerOk, uncles[..1])
                 && Rules(seen + {uncles[0].hash}, ancestors, parent, headerOk, uncles[1..])
  {
    VerifyFromRules(seen, ancestors, parent, headerOk, uncles);
    VerifyFromRules(seen, ancestors, parent, headerOk, uncles[..1]);
    VerifyFromRules(seen + {uncles[0].hash}, ancestors, parent, headerOk, uncles[1..]);
    assert VerifyFrom(seen + {uncles[0].hash}, ancestors, parent, headerOk, uncles[..1][1..]) == Valid;
  }

  /** A single candidate that is acceptable is chosen. */
  lemma OnlyCandidateChosen(recent: seq<Block>, h: Hash, u: Header, uncles: seq<Header>, badUncles: set<Hash>)
    requires Acceptable(recent, {}, u) && Chosen(recent, map[h := u], uncles, badUncles)
    ensures uncles == [u]
  {
    var candidates := map[h := u];
    var done :| Sorted(recent, candidates, done, uncles, badUncles) && (|uncles| < 2 ==> done == candidates.Keys);
    forall i | 0 <= i < |uncles| ensures uncles[i] == u {
      assert uncles[i] in candidates.Values;
    }
    assert |uncles| < 2 || uncles[0].hash == uncles[1].hash;
    assert done == candidates.Keys && h in done;
    assert h in badUncles ==> candidates[h].hash in HashesOf(uncles);
    assert h !in badUncles ==> candidates[h] in uncles;
  }

  /**
   * When the only candidate is a sibling of the new block, a child of the same parent, that the miner finds
   * acceptable, the miner's loop always ends with it, and the validator rejects every block with these uncles.
   */
  lemma SiblingRejected(recent: seq<Block>, parent: Hash, headerOk: Header -> bool, h: Hash, u: Header, block: Block,
                        badUncles: set<Hash>)
    requires Acceptable(recent, {}, u) && u.parentHash == parent
    requires Chosen(recent, map[h := u], block.uncles, badUncles)
    ensures block.uncles == [u]
    ensures Verify(recent, parent, headerOk, block)
            == if u.hash == block.header.hash then NotUnique else ParentNotAncestor
  {
    OnlyCandidateChosen(recent, h, u, block.uncles, badUncles);
  }
}
