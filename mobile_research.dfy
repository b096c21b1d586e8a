/**
  The door-to-door research page (components/mobile-research.tsx): operators give
  points to options grouped in three categories. The page counts the stored votes
  per option and per operator, groups the options by category, and finds a
  custom option again by its label when it already exists.
*/
module MobileResearch {
  import opened Optional
  import opened Seqs
  import opened Records
  import Tallies
  import Labels
  import Text

  /** A stored vote: the option it is for and the operator who gave it, if any. */
  datatype Vote = Vote(option_id: int, operator: Option<string>)

  /** An option as stored: its id, its category and its label (`text`). */
  datatype ResearchOption = ResearchOption(id: int, category: string, text: string)

  /** The counts of one option: all its votes, and its votes per operator. */
  datatype OptionCount = OptionCount(total: nat, byOperator: map<string, nat>)

  /** `(v.operator as string) || ''`: a vote without an operator is counted under
      the empty name. */
  function OperatorKey(v: Vote): (op: string)
    ensures v.operator.None? ==> op == ""
    ensures v.operator.Some? ==> op == v.operator.value
  {
    OrElse(v.operator, "")
  }

  /** The option ids of the votes, in order. */
  function OptionIds(votes: seq<Vote>): (ids: seq<int>)
    ensures |ids| == |votes|
    ensures forall i :: 0 <= i < |votes| ==> ids[i] == votes[i].option_id
  {
    seq(|votes|, i requires 0 <= i < |votes| => votes[i].option_id)
  }

  /** The operators of the votes for option `oid`, in the order of the votes. */
  function VotesFor(votes: seq<Vote>, oid: int): (ops: seq<string>)
    ensures |ops| <= |votes|
    decreases |votes|
  {
    if votes == [] then []
    else
      var last := votes[|votes| - 1];
      VotesFor(votes[..|votes| - 1], oid) + (if last.option_id == oid then [OperatorKey(last)] else [])
  }

  /** One more vote is one more operator for its own option and none for another. */
  lemma VotesForSnoc(votes: seq<Vote>, v: Vote, oid: int)
    ensures VotesFor(votes + [v], oid) == VotesFor(votes, oid) + (if v.option_id == oid then [OperatorKey(v)] else [])
  {
    assert (votes + [v])[..|votes|] == votes;
  }

  /** The votes for an option are as many as the occurrences of its id. */
  lemma {:induction false} VotesForCount(votes: seq<Vote>, oid: int)
    ensures |VotesFor(votes, oid)| == multiset(OptionIds(votes))[oid]
    decreases |votes|
  {
    if votes != [] {
      var front := votes[..|votes| - 1];
      var v := votes[|votes| - 1];
      VotesForCount(front, oid);
      assert front + [v] == votes;
      assert OptionIds(votes) == OptionIds(front) + [v.option_id];
      Tallies.MultisetSnoc(OptionIds(front), v.option_id);
    }
  }

  /** An option has votes exactly when its id occurs among them. */
  lemma VotedIffListed(votes: seq<Vote>, oid: int)
    ensures VotesFor(votes, oid) != [] <==> oid in OptionIds(votes)
  {
    VotesForCount(votes, oid);
  }

  /** `byOperator` holds, for every operator who voted for the option, the number
      of those votes, and no other key. */
  ghost predicate OperatorsCounted(byOperator: map<string, nat>, ops: seq<string>)
  {
    && (forall op :: op in byOperator <==> op in ops)
    && (forall op :: op in byOperator ==> byOperator[op] == multiset(ops)[op])
  }

  /** The state of `voteCounts` after the votes `votes`: an entry for every option
      that has a vote, with its total and its counts per operator. */
  ghost predicate VotesCounted(counts: map<int, OptionCount>, votes: seq<Vote>)
  {
    && (forall oid :: oid in counts <==> VotesFor(votes, oid) != [])
    && (forall oid :: oid in counts ==> counts[oid].total == |VotesFor(votes, oid)|)
    && (forall oid :: oid in counts ==> OperatorsCounted(counts[oid].byOperator, VotesFor(votes, oid)))
  }

  /** `byOperator[op] = (byOperator[op] || 0) + 1`. */
  lemma OperatorCountedStep(byOperator: map<string, nat>, ops: seq<string>, op: string)
    requires OperatorsCounted(byOperator, ops)
    ensures OperatorsCounted(byOperator[op := (if op in byOperator then byOperator[op] else 0) + 1], ops + [op])
  {
    Tallies.MultisetSnoc(ops, op);
  }

  /** The entry of the vote's option takes one more vote; the others stay. */
  lemma VoteCounted(counts: map<int, OptionCount>, votes: seq<Vote>, v: Vote, c: OptionCount)
    requires VotesCounted(counts, votes)
    requires c == if v.option_id in counts then counts[v.option_id] else OptionCount(0, map[])
    ensures var op := OperatorKey(v);
      VotesCounted(
        counts[v.option_id := OptionCount(c.total + 1,
          c.byOperator[op := (if op in c.byOperator then c.byOperator[op] else 0) + 1])],
        votes + [v])
  {
    var oid := v.option_id;
    var op := OperatorKey(v);
    var entry := OptionCount(c.total + 1, c.byOperator[op := (if op in c.byOperator then c.byOperator[op] else 0) + 1]);
    VoteCountedOwn(counts, votes, v, c);
    forall other | other != oid
      ensures VotesFor(votes + [v], other) == VotesFor(votes, other)
    {
      VotesForSnoc(votes, v, other);
    }
    CountedFromParts(counts, votes, v, entry);
  }

  /** The vote's own option: one more vote in total and for its operator. */
  lemma VoteCountedOwn(counts: map<int, OptionCount>, votes: seq<Vote>, v: Vote, c: OptionCount)
    requires VotesCounted(counts, votes)
    requires c == if v.option_id in counts then counts[v.option_id] else OptionCount(0, map[])
    ensures var op := OperatorKey(v);
      var ops := VotesFor(votes + [v], v.option_id);
      && ops != []
      && c.total + 1 == |ops|
      && OperatorsCounted(c.byOperator[op := (if op in c.byOperator then c.byOperator[op] else 0) + 1], ops)
  {
    VotesForSnoc(votes, v, v.option_id);
    if v.option_id !in counts {
      assert VotesFor(votes, v.option_id) == [];
    }
    OperatorCountedStep(c.byOperator, VotesFor(votes, v.option_id), OperatorKey(v));
  }

  /** Putting the parts together: the new entry for the vote's option, and every
      other option's votes unchanged. */
  lemma CountedFromParts(counts: map<int, OptionCount>, votes: seq<Vote>, v: Vote, entry: OptionCount)
    requires VotesCounted(counts, votes)
    requires VotesFor(votes + [v], v.option_id) != []
    requires entry.total == |VotesFor(votes + [v], v.option_id)|
    requires OperatorsCounted(entry.byOperator, VotesFor(votes + [v], v.option_id))
    requires forall other :: other != v.option_id ==> VotesFor(votes + [v], other) == VotesFor(votes, other)
    ensures VotesCounted(counts[v.option_id := entry], votes + [v])
  {
    var counts' := counts[v.option_id := entry];
    var votes' := votes + [v];
    forall oid
      ensures oid in counts' <==> VotesFor(votes', oid) != []
    {
      if oid != v.option_id {
        assert VotesFor(votes', oid) == VotesFor(votes, oid);
      }
    }
    forall oid | oid in counts'
      ensures counts'[oid].total == |VotesFor(votes', oid)|
      ensures OperatorsCounted(counts'[oid].byOperator, VotesFor(votes', oid))
    {
      if oid != v.option_id {
        assert VotesFor(votes', oid) == VotesFor(votes, oid);
        assert counts'[oid] == counts[oid];
      }
    }
  }

  /** The body of the `for (const v of voteRes.data || [])` loop. */
  method CountVote(counts: map<int, OptionCount>, ghost votes: seq<Vote>, v: Vote)
    returns (counts': map<int, OptionCount>)
    requires VotesCounted(counts, votes)
    ensures VotesCounted(counts', votes + [v])
  {
    var oid := v.option_id;
    var c := if oid in counts then counts[oid] else OptionCount(0, map[]);
    var op := OperatorKey(v);
    var n := if op in c.byOperator then c.byOperator[op] else 0;
    VoteCounted(counts, votes, v, c);
    counts' := counts[oid := OptionCount(c.total + 1, c.byOperator[op := n + 1])];
  }

  /** The vote count of `fetchData`: one pass over the stored votes. */
  method CountVotes(votes: seq<Vote>) returns (counts: map<int, OptionCount>)
    ensures VotesCounted(counts, votes)
  {
    counts := map[];
    var i := 0;
    while i < |votes|
      invariant 0 <= i <= |votes|
      invariant VotesCounted(counts, votes[..i])
    {
      assert votes[..i + 1] == votes[..i] + [votes[i]];
      counts := CountVote(counts, votes[..i], votes[i]);
      i := i + 1;
    }
    assert votes[..i] == votes;
  }

  /** The sum of the values of `m` at the keys `keys`. */
  function SumAt(m: map<string, nat>, keys: seq<string>): nat
    decreases |keys|
  {
    if keys == [] then 0
    else SumAt(m, keys[..|keys| - 1]) + (if keys[|keys| - 1] in m then m[keys[|keys| - 1]] else 0)
  }

  lemma {:induction false} SumAtIsSumOver(m: map<string, nat>, ops: seq<string>, keys: seq<string>)
    requires OperatorsCounted(m, ops)
    ensures SumAt(m, keys) == Tallies.SumOver(keys, multiset(ops))
    decreases |keys|
  {
    if keys != [] {
      SumAtIsSumOver(m, ops, keys[..|keys| - 1]);
      var k := keys[|keys| - 1];
      if k !in m {
        assert k !in ops;
      }
    }
  }

  /** Every option's total is the sum of its counts per operator, taken over the
      operators that voted for it, each once. */
  lemma TotalIsSumByOperator(counts: map<int, OptionCount>, votes: seq<Vote>, oid: int)
    requires VotesCounted(counts, votes) && oid in counts
    ensures counts[oid].total == SumAt(counts[oid].byOperator, Tallies.FirstSeen(VotesFor(votes, oid)))
  {
    var ops := VotesFor(votes, oid);
    SumAtIsSumOver(counts[oid].byOperator, ops, Tallies.FirstSeen(ops));
    Tallies.SumOverAll(ops);
  }

  /** The sum of the totals of the given options. */
  function SumTotals(counts: map<int, OptionCount>, oids: seq<int>): nat
    decreases |oids|
  {
    if oids == [] then 0
    else SumTotals(counts, oids[..|oids| - 1]) + (if oids[|oids| - 1] in counts then counts[oids[|oids| - 1]].total else 0)
  }

  lemma {:induction false} SumTotalsIsSumOver(counts: map<int, OptionCount>, votes: seq<Vote>, oids: seq<int>)
    requires VotesCounted(counts, votes)
    ensures SumTotals(counts, oids) == Tallies.SumOver(oids, multiset(OptionIds(votes)))
    decreases |oids|
  {
    if oids != [] {
      var k := oids[|oids| - 1];
      SumTotalsIsSumOver(counts, votes, oids[..|oids| - 1]);
      VotesForCount(votes, k);
    }
  }

  /** The totals of all options with votes add up to the number of votes. */
  lemma TotalsAddUp(counts: map<int, OptionCount>, votes: seq<Vote>)
    requires VotesCounted(counts, votes)
    ensures SumTotals(counts, Tallies.FirstSeen(OptionIds(votes))) == |votes|
  {
    SumTotalsIsSumOver(counts, votes, Tallies.FirstSeen(OptionIds(votes)));
    Tallies.SumOverAll(OptionIds(votes));
  }

  /** `counts[opt.id] || { total: 0, byOperator: {} }` and the signed-in operator's
      own points: 0 without a user or without a vote of theirs. */
  function MyCount(counts: map<int, OptionCount>, oid: int, user: Option<string>): nat
  {
    var c := if oid in counts then counts[oid] else OptionCount(0, map[]);
    match user
    case None => 0
    case Some(name) => if name in c.byOperator then c.byOperator[name] else 0
  }

  /** An operator's own points on an option are the votes they gave it. */
  lemma MyCountIsOwnVotes(counts: map<int, OptionCount>, votes: seq<Vote>, oid: int, name: string)
    requires VotesCounted(counts, votes)
    ensures MyCount(counts, oid, Some(name)) == multiset(VotesFor(votes, oid))[name]
    ensures MyCount(counts, oid, None) == 0
  {
    if oid !in counts {
      assert VotesFor(votes, oid) == [];
    }
  }

  /** A vote by `name` for `oid` (`handleVote`, then `fetchData` again) adds one to
      the option's total and to their own points, and nothing to other options. */
  lemma VoteAddsOne(votes: seq<Vote>, oid: int, name: string, other: int)
    requires other != oid
    ensures var votes' := votes + [Vote(oid, Some(name))];
      && |VotesFor(votes', oid)| == |VotesFor(votes, oid)| + 1
      && multiset(VotesFor(votes', oid))[name] == multiset(VotesFor(votes, oid))[name] + 1
      && VotesFor(votes', other) == VotesFor(votes, other)
  {
    VotesForSnoc(votes, Vote(oid, Some(name)), oid);
    VotesForSnoc(votes, Vote(oid, Some(name)), other);
  }

  /** The three categories, in the order `CATEGORIES` lists them. */
  const CATEGORIES: seq<string> := ["nevoi", "dorinte", "probleme"]

  function InCategory(category: string): ResearchOption -> bool
  {
    (o: ResearchOption) => o.category == category
  }

  /** `optionsByCategory`: for each category, its options in the loaded order. */
  function OptionsByCategory(options: seq<ResearchOption>): (groups: seq<(string, seq<ResearchOption>)>)
    ensures |groups| == |CATEGORIES|
    ensures forall i :: 0 <= i < |groups| ==> groups[i].0 == CATEGORIES[i]
    ensures forall i, o :: 0 <= i < |groups| ==> (o in groups[i].1 <==> o in options && o.category == CATEGORIES[i])
  {
    seq(|CATEGORIES|, i requires 0 <= i < |CATEGORIES| => (CATEGORIES[i], Filter(options, InCategory(CATEGORIES[i]))))
  }

  /** Each group keeps the loaded order, the groups share no option, and an option
      of any other category is in none of them. */
  lemma GroupsPartition(options: seq<ResearchOption>)
    ensures forall i :: 0 <= i < 3 ==> IsSubsequence(OptionsByCategory(options)[i].1, options)
    ensures var g := OptionsByCategory(options); |g[0].1| + |g[1].1| + |g[2].1| <= |options|
    ensures forall o: ResearchOption :: o.category !in CATEGORIES ==> forall i :: 0 <= i < 3 ==> o !in OptionsByCategory(options)[i].1
  {
    var g := OptionsByCategory(options);
    forall i | 0 <= i < 3
      ensures IsSubsequence(g[i].1, options)
    {
      FilterIsSubsequence(options, InCategory(CATEGORIES[i]));
    }
    FilterDisjoint3(options, InCategory("nevoi"), InCategory("dorinte"), InCategory("probleme"));
  }

  /** The id of the stored option of the category whose label names the same option
      as `wanted`; `None` stands for the "could not find id" error. */
  function ExistingOptionId(all: Option<seq<ResearchOption>>, wanted: string): (id: Option<int>)
    ensures id.Some? ==> exists o :: o in all.GetOr([]) && o.id == id.value && Labels.SameLabel(o.text, wanted)
    ensures id.None? <==> forall o :: o in all.GetOr([]) ==> !Labels.SameLabel(o.text, wanted)
  {
    match Labels.FindByLabel(all, (o: ResearchOption) => o.text, wanted)
    case Some(o) => Some(o.id)
    case None => None
  }

  /** `addOtherOption`: nothing happens without a signed-in operator or with a
      blank text; otherwise the operator votes once for the new option or, when it
      exists already, for the stored option with the same label. `None` stands for
      the error alert, after which no vote was added. The votes as `fetchData`
      reads them again are the result. */
  function AddOtherOption(votes: seq<Vote>, otherText: string, user: Option<string>,
                          outcome: Labels.InsertOutcome<ResearchOption>): (r: Option<seq<Vote>>)
    ensures Text.Trim(otherText) == "" || user.None? ==> r == Some(votes)
    ensures Text.Trim(otherText) != "" && user.Some? && outcome.Inserted? ==>
              r == Some(votes + [Vote(outcome.newId, user)])
    ensures Text.Trim(otherText) != "" && user.Some? && outcome.InsertFailed? ==> r.None?
    ensures (Text.Trim(otherText) != "" && user.Some? && outcome.Duplicate? &&
             forall o :: o in outcome.stored.GetOr([]) ==> !Labels.SameLabel(o.text, Text.Trim(otherText))) ==> r.None?
    ensures r.Some? && r.value != votes ==>
              user.Some? && |r.value| == |votes| + 1 && r.value[..|votes|] == votes && r.value[|votes|].operator == user
  {
    var wanted := Text.Trim(otherText);
    if wanted == "" || user.None? then Some(votes)
    else match outcome
      case Inserted(id) => Some(votes + [Vote(id, user)])
      case Duplicate(stored) =>
        (match ExistingOptionId(stored, wanted)
         case Some(id) => Some(votes + [Vote(id, user)])
         case None => None)
      case InsertFailed => None
  }

  /** Adding an option that exists already is one more point from the operator for
      the stored option with that label, and none for any other option. */
  lemma AddExistingOptionVotes(votes: seq<Vote>, otherText: string, name: string,
                               stored: Option<seq<ResearchOption>>, o: ResearchOption, other: int)
    requires Text.Trim(otherText) != "" && o in stored.GetOr([]) && Labels.SameLabel(o.text, Text.Trim(otherText))
    ensures ExistingOptionId(stored, Text.Trim(otherText)).Some?
    ensures var r := AddOtherOption(votes, otherText, Some(name), Labels.Duplicate(stored));
            var id := ExistingOptionId(stored, Text.Trim(otherText)).value;
            && r.Some?
            && |VotesFor(r.value, id)| == |VotesFor(votes, id)| + 1
            && multiset(VotesFor(r.value, id))[name] == multiset(VotesFor(votes, id))[name] + 1
            && (other != id ==> VotesFor(r.value, other) == VotesFor(votes, other))
  {
    var wanted := Text.Trim(otherText);
    var id := ExistingOptionId(stored, wanted).value;
    assert AddOtherOption(votes, otherText, Some(name), Labels.Duplicate(stored)) == Some(votes + [Vote(id, Some(name))]);
    if other != id {
      VoteAddsOne(votes, id, name, other);
    } else {
      VoteAddsOne(votes, id, name, id + 1);
    }
  }
}
