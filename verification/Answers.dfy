/** Downloads from peers that answer as they like (daemon.go). A block is checked
    against its own CID, not the one asked for. */
module Answers {
  import opened Merkle
  import opened Downloads

  /** Which blocks peers may answer with when asked for a CID. */
  type Policy = (Cid, Block) -> bool

  /** The answer passes the checks that are made. */
  predicate Accepted(c: Codec, b: Block) {
    BlockValid(c, b) && ParseBlock(c, b).Ok?
  }

  predicate Follows(answers: Policy, s: State, a: Action) {
    a.Fetch? && a.i < |s.tasks| && s.tasks[a.i].Looking? ==> answers(s.tasks[a.i].cid, a.b)
  }

  predicate PolicyRun(c: Codec, answers: Policy, s: State, acts: seq<Action>)
    decreases |acts|
  {
    acts == []
    || (Enabled(s, acts[0]) && Follows(answers, s, acts[0]) && PolicyRun(c, answers, Apply(c, s, acts[0]), acts[1..]))
  }

  function PolicyAfter(c: Codec, answers: Policy, s: State, acts: seq<Action>): State
    requires PolicyRun(c, answers, s, acts)
    decreases |acts|
  {
    if acts == [] then s else PolicyAfter(c, answers, Apply(c, s, acts[0]), acts[1..])
  }

  // ----- the store under any answers

  ghost predicate TaskSound(c: Codec, t: Task) {
    t.Parsed? ==> BlockValid(c, t.node.block)
  }

  ghost predicate Sound(c: Codec, s: State) {
    ContentAddressed(c, s.store) && forall t :: t in s.tasks ==> TaskSound(c, t)
  }

  lemma StepSound(c: Codec, s: State, a: Action)
    requires Sound(c, s) && Enabled(s, a)
    ensures Sound(c, Apply(c, s, a))
  {
    var s' := Apply(c, s, a);
    assert s.tasks[a.i] in s.tasks;
    forall t | t in s'.tasks
      ensures TaskSound(c, t)
    {
      TaskOrigin(c, s, a, t);
    }
  }

  /** A task after a step is one from before it, the one that moved, or new. */
  lemma TaskOrigin(c: Codec, s: State, a: Action, t: Task)
    requires Enabled(s, a) && t in Apply(c, s, a).tasks
    ensures t in s.tasks || t == Apply(c, s, a).tasks[a.i] || t.Waiting?
  {
    var ts := Apply(c, s, a).tasks;
    var j :| 0 <= j < |ts| && ts[j] == t;
    assert j != a.i && j < |s.tasks| ==> t == s.tasks[j];
  }

  /** Whatever peers answer, the store holds every block under its own CID. */
  lemma {:induction false} StoreStaysSound(c: Codec, answers: Policy, s: State, acts: seq<Action>)
    requires Sound(c, s) && PolicyRun(c, answers, s, acts)
    ensures Sound(c, PolicyAfter(c, answers, s, acts))
    decreases |acts|
  {
    hide Sound, Enabled, Apply;
    if acts != [] {
      StepSound(c, s, acts[0]);
      StoreStaysSound(c, answers, Apply(c, s, acts[0]), acts[1..]);
    }
  }

  // ----- announced implies stored

  /** All that has been announced since the start is in the store. */
  ghost predicate AllStored(old0: set<Cid>, s: State) {
    s.announced <= old0 + s.store.Keys
  }

  /** Accepted answers are the blocks that were asked for. */
  ghost predicate Matching(c: Codec, answers: Policy) {
    forall cid, b :: answers(cid, b) && Accepted(c, b) ==> b.cid == cid
  }

  ghost predicate TaskMatches(c: Codec, st: Store, t: Task) {
    match t
    case Fetched(cid, b) => Accepted(c, b) ==> b.cid == cid
    case Parsed(cid, m) => m.block.cid == cid
    case Saved(cid, _) => cid in st
    case Announced(cid, _) => cid in st
    case _ => true
  }

  ghost predicate Matched(c: Codec, old0: set<Cid>, s: State) {
    AllStored(old0, s) && forall t :: t in s.tasks ==> TaskMatches(c, s.store, t)
  }

  lemma StepMatched(c: Codec, answers: Policy, old0: set<Cid>, s: State, a: Action)
    requires Matching(c, answers) && Matched(c, old0, s) && Enabled(s, a) && Follows(answers, s, a)
    ensures Matched(c, old0, Apply(c, s, a))
  {
    var s' := Apply(c, s, a);
    assert TaskMatches(c, s.store, s.tasks[a.i]);
    assert s.store.Keys <= s'.store.Keys;
    forall t | t in s'.tasks
      ensures TaskMatches(c, s'.store, t)
    {
      TaskOrigin(c, s, a, t);
      if t in s.tasks {
        assert TaskMatches(c, s.store, t);
      }
    }
  }

  lemma {:induction false} RunMatched(c: Codec, answers: Policy, old0: set<Cid>, s: State, acts: seq<Action>)
    requires Matching(c, answers) && Matched(c, old0, s) && PolicyRun(c, answers, s, acts)
    ensures Matched(c, old0, PolicyAfter(c, answers, s, acts))
    decreases |acts|
  {
    hide Matching, Matched, Enabled, Apply, Follows;
    if acts != [] {
      StepMatched(c, answers, old0, s, acts[0]);
      RunMatched(c, answers, old0, Apply(c, s, acts[0]), acts[1..]);
    }
  }

  ghost predicate AlwaysStored(c: Codec, answers: Policy) {
    forall before, old0, roots, acts ::
      PolicyRun(c, answers, Start(before, old0, roots), acts)
      ==> AllStored(old0, PolicyAfter(c, answers, Start(before, old0, roots), acts))
  }

  /** What is announced is stored, in every run of any downloads from any store,
      if and only if every answer that passes the checks has the CID asked for. */
  lemma AnnouncedIsStoredIff(c: Codec, answers: Policy)
    ensures AlwaysStored(c, answers) <==> Matching(c, answers)
  {
    if Matching(c, answers) {
      forall before, old0, roots, acts | PolicyRun(c, answers, Start(before, old0, roots), acts)
        ensures AllStored(old0, PolicyAfter(c, answers, Start(before, old0, roots), acts))
      {
        RunMatched(c, answers, old0, Start(before, old0, roots), acts);
      }
    } else {
      var cid, b :| answers(cid, b) && Accepted(c, b) && b.cid != cid;
      OtherBlockRun(c, answers, cid, b);
      assert PolicyRun(c, answers, Start(map[], {}, [cid]), OtherBlock(b));
    }
  }

  function OtherBlock(b: Block): seq<Action> {
    [Acquire(0), Fetch(0, b), Check(0), Save(0), Announce(0)]
  }

  /** The block answered is stored, and the CID asked for announced. */
  function Misled(c: Codec, before: Store, old0: set<Cid>, root: Cid, b: Block): State
    requires Accepted(c, b)
  {
    State([Announced(root, ParseBlock(c, b).value.attr.links)], 1, Put(before, b), old0 + {root}, [root])
  }

  /** What follows once a peer has answered with `b`, and it was accepted. */
  lemma AnswerTaken(c: Codec, answers: Policy, before: Store, old0: set<Cid>, root: Cid, b: Block,
                    rest: seq<Action>)
    requires answers(root, b) && Accepted(c, b) && PolicyRun(c, answers, Misled(c, before, old0, root, b), rest)
    ensures PolicyRun(c, answers, Start(before, old0, [root]), OtherBlock(b) + rest)
    ensures PolicyAfter(c, answers, Start(before, old0, [root]), OtherBlock(b) + rest)
         == PolicyAfter(c, answers, Misled(c, before, old0, root, b), rest)
  {
    var links := ParseBlock(c, b).value.attr.links;
    hide PolicyRun, PolicyAfter, Put, BlockValid, ParseBlock;
    var s1 := State([Looking(root)], 1, before, old0, []);
    var s2 := State([Fetched(root, b)], 1, before, old0, [root]);
    var s3 := State([Parsed(root, ParseBlock(c, b).value)], 1, before, old0, [root]);
    var s4 := State([Saved(root, links)], 1, Put(before, b), old0, [root]);
    AnswerMoves(c, before, old0, root, b);
    hide Apply;
    PolicyStep(c, answers, s4, Announce(0), rest);
    PolicyStep(c, answers, s3, Save(0), [Announce(0)] + rest);
    PolicyStep(c, answers, s2, Check(0), [Save(0)] + ([Announce(0)] + rest));
    PolicyStep(c, answers, s1, Fetch(0, b), [Check(0)] + ([Save(0)] + ([Announce(0)] + rest)));
    PolicyStep(c, answers, Start(before, old0, [root]), Acquire(0),
               [Fetch(0, b)] + ([Check(0)] + ([Save(0)] + ([Announce(0)] + rest))));
    assert OtherBlock(b) + rest
        == [Acquire(0)] + ([Fetch(0, b)] + ([Check(0)] + ([Save(0)] + ([Announce(0)] + rest))));
  }

  lemma AnswerMoves(c: Codec, before: Store, old0: set<Cid>, root: Cid, b: Block)
    requires Accepted(c, b)
    ensures Apply(c, Start(before, old0, [root]), Acquire(0)) == State([Looking(root)], 1, before, old0, [])
    ensures Apply(c, State([Looking(root)], 1, before, old0, []), Fetch(0, b))
         == State([Fetched(root, b)], 1, before, old0, [root])
    ensures Apply(c, State([Fetched(root, b)], 1, before, old0, [root]), Check(0))
         == State([Parsed(root, ParseBlock(c, b).value)], 1, before, old0, [root])
    ensures Apply(c, State([Parsed(root, ParseBlock(c, b).value)], 1, before, old0, [root]), Save(0))
         == State([Saved(root, ParseBlock(c, b).value.attr.links)], 1, Put(before, b), old0, [root])
    ensures Apply(c, State([Saved(root, ParseBlock(c, b).value.attr.links)], 1, Put(before, b), old0, [root]),
                  Announce(0)) == Misled(c, before, old0, root, b)
  {
    hide Put;
    ParsedBlock(c, b);
    hide BlockValid, ParseBlock;
    assert forall t: Task, u: Task :: [t][0 := u] == [u];
    assert [] + [root] == [root];
  }

  lemma ParsedBlock(c: Codec, b: Block)
    requires Accepted(c, b)
    ensures BlockValid(c, b) && ParseBlock(c, b).Ok? && ParseBlock(c, b).value.block == b
  {
  }

  /** A peer answers with another valid block: the CID asked for is announced, and
      not stored. */
  lemma OtherBlockRun(c: Codec, answers: Policy, cid: Cid, b: Block)
    requires answers(cid, b) && Accepted(c, b) && b.cid != cid
    ensures PolicyRun(c, answers, Start(map[], {}, [cid]), OtherBlock(b))
    ensures var s := PolicyAfter(c, answers, Start(map[], {}, [cid]), OtherBlock(b));
            cid in s.announced && cid !in s.store
  {
    AnswerTaken(c, answers, map[], {}, cid, b, []);
    assert OtherBlock(b) + [] == OtherBlock(b);
  }

  lemma PolicyStep(c: Codec, answers: Policy, s: State, a: Action, rest: seq<Action>)
    requires Enabled(s, a) && Follows(answers, s, a) && PolicyRun(c, answers, Apply(c, s, a), rest)
    ensures PolicyRun(c, answers, s, [a] + rest)
    ensures PolicyAfter(c, answers, s, [a] + rest) == PolicyAfter(c, answers, Apply(c, s, a), rest)
  {
    assert ([a] + rest)[1..] == rest;
  }

  /** When that block is a leaf the download even ends without an error; then the
      CID asked for is stored exactly if the answer had it or it was there. */
  lemma AnswerNotChecked(c: Codec, answers: Policy, before: Store, old0: set<Cid>, root: Cid, b: Block)
    requires answers(root, b) && Accepted(c, b) && ParseBlock(c, b).value.attr.links == []
    ensures PolicyRun(c, answers, Start(before, old0, [root]), OtherBlock(b) + [Return(0)])
    ensures var s := PolicyAfter(c, answers, Start(before, old0, [root]), OtherBlock(b) + [Return(0)]);
            && s.tasks == [Finished]
            && root in s.announced
            && (root in s.store <==> b.cid == root || root in before)
  {
    var s := Misled(c, before, old0, root, b);
    PolicyStep(c, answers, s, Return(0), []);
    assert [Return(0)] + [] == [Return(0)];
    AnswerTaken(c, answers, before, old0, root, b, [Return(0)]);
  }
}
