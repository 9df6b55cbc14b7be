/**
 * What the endpoints guarantee: who may change what, the order in which a
 * request is refused, what a successful request leaves in the store, and
 * how the vote listings and the tally relate to the vote table.
 */
module ViewProofs {
  import opened Wrappers
  import opened Tables
  import opened Models
  import opened Serializers
  import opened TreeProofs
  import opened Views

  // ---------------------------------------------------------------------
  // Create.

  /**
   * A created voting belongs to the requester whatever author the body
   * names; it carries the body's fields and tree, gets a fresh id, leaves
   * every other voting and every vote alone, and keeps the store well formed.
   */
  lemma CreateVotingBuilds(s: Store, x: VotingInput, requester: UserId, claimed: Option<UserId>)
    requires WellFormed(s) && CreateVoting(s, x, requester).Ok?
    ensures CreateVoting(s, x.(author := claimed), requester) == CreateVoting(s, x, requester)
    ensures var r := CreateVoting(s, x, requester).value;
      var v := s.nextVoting;
      && WellFormed(r)
      && v !in s.votings
      && RetrieveVoting(r, v).Ok?
      && var rep := RetrieveVoting(r, v).value;
      && rep.author == requester
      && Some(rep.title) == TrimField(x.title) && Some(rep.description) == TrimField(x.description)
      && rep.isSubmit == x.isSubmit.GetOr(false)
      && rep.questionAnswerPairs == TrimField(x.questionAnswerPairs).GetOr("")
      && rep.hiddenPages == TrimField(x.hiddenPages).GetOr("")
      && StripPages(rep.pages) == PageShapes(CleanPages(x.pages.value))
      && (forall w :: w in s.votings ==> RetrieveVoting(r, w) == RetrieveVoting(s, w))
      && r.votes == s.votes
  {
    assert Incoming(x.(author := claimed)) == Incoming(x);
    var d := Incoming(x);
    ConstructBuildsPayload(s, d, requester);
  }

  // ---------------------------------------------------------------------
  // Update.

  /**
   * A successful update keeps the voting's id and author, takes the
   * scalar fields the body carries, stripped, and keeps the others, and rebuilds the
   * tree from the body under fresh ids: a partial body without `pages`
   * leaves the voting with no pages at all.  Votes on the old tree go,
   * every other vote and every other voting stay.
   */
  lemma UpdateVotingRebuilds(s: Store, v: Id, x: VotingInput, partial: bool, requester: UserId)
    requires WellFormed(s) && UpdateVoting(s, v, x, partial, requester).Ok?
    ensures var r := UpdateVoting(s, v, x, partial, requester).value;
      var before := s.votings[v];
      && WellFormed(r)
      && RetrieveVoting(r, v).Ok?
      && var rep := RetrieveVoting(r, v).value;
      && rep.author == before.author == requester
      && rep.title == TrimField(x.title).GetOr(before.title)
      && rep.description == TrimField(x.description).GetOr(before.description)
      && rep.isSubmit == x.isSubmit.GetOr(before.isSubmit)
      && rep.questionAnswerPairs == TrimField(x.questionAnswerPairs).GetOr(before.questionAnswerPairs)
      && rep.hiddenPages == TrimField(x.hiddenPages).GetOr(before.hiddenPages)
      && StripPages(rep.pages) == PageShapes(CleanPages(x.pages.GetOr([])))
      && (x.pages.None? ==> partial && rep.pages == [])
      && (forall q: Id :: QuestionIn(s, q, v) ==> q !in r.questions)
      && (forall q: Id :: QuestionIn(r, q, v) ==> q >= s.nextQuestion)
      && (forall k :: k in r.votes <==>
            k in s.votes && !QuestionIn(s, s.votes[k].question, v) && !ChoiceIn(s, s.votes[k].choice, v))
      && (forall k :: k in r.votes ==> r.votes[k] == s.votes[k])
      && (forall w :: w in s.votings && w != v ==> RetrieveVoting(r, w) == RetrieveVoting(s, w))
  {
    var d := Incoming(x);
    assert d.pages.GetOr([]) == CleanPages(x.pages.GetOr([]));
    ReplaceRebuildsPayload(s, v, d);
    var rep := RetrieveVoting(UpdateVoting(s, v, x, partial, requester).value, v).value;
    assert |StripPages(rep.pages)| == |rep.pages|;
  }

  // ---------------------------------------------------------------------
  // Delete.

  /**
   * A successful delete removes the voting with its pages, questions and
   * choices and every vote on them; every other voting is represented as
   * before and every other vote stays; the store stays well formed.
   */
  lemma DeleteVotingRemoves(s: Store, v: Id, requester: UserId)
    requires WellFormed(s) && DeleteVoting(s, v, requester).Ok?
    ensures var r := DeleteVoting(s, v, requester).value;
      && WellFormed(r)
      && RetrieveVoting(r, v) == Err(NotFound)
      && (forall p: Id :: !PageIn(r, p, v))
      && (forall q: Id :: QuestionIn(s, q, v) ==> q !in r.questions)
      && (forall c: Id :: ChoiceIn(s, c, v) ==> c !in r.choices)
      && (forall k :: k in r.votes <==>
            k in s.votes && !QuestionIn(s, s.votes[k].question, v) && !ChoiceIn(s, s.votes[k].choice, v))
      && (forall k :: k in r.votes ==> r.votes[k] == s.votes[k])
      && (forall w :: w in s.votings && w != v ==> RetrieveVoting(r, w) == RetrieveVoting(s, w))
  {
    var r := DeleteVoting(s, v, requester).value;
    var s1 := DeletePages(s, v);
    assert r == s1.(votings := r.votings);
    DeleteVotingWellFormed(s, v);
    forall w | w in s.votings && w != v ensures RetrieveVoting(r, w) == RetrieveVoting(s, w) {
      TreeTablesDecide(s1, r, w);
      DeleteKeepsOthers(s, v, w);
    }
  }

  // ---------------------------------------------------------------------
  // Listing.

  /** The listing holds exactly the requester's votings, ascending by id. */
  lemma ListByUserComplete(s: Store, u: UserId)
    requires Closed(s)
    ensures ListByUser(s, u, u).Ok?
    ensures var l := ListByUser(s, u, u).value;
      && (forall w :: w in s.votings && s.votings[w].author == u ==>
            exists i :: 0 <= i < |l| && l[i] == Encode(s, w))
      && (forall i, j :: 0 <= i < j < |l| ==> l[i].id < l[j].id)
  {
    var ids := AuthoredBy(s, u);
    var l := ListByUser(s, u, u).value;
    SelectComplete(s.votings, VotingAuthor, {u}, s.nextVoting);
    forall w | w in s.votings && s.votings[w].author == u
      ensures exists i :: 0 <= i < |l| && l[i] == Encode(s, w)
    {
      assert VotingAuthor(s.votings[w]) in {u};
      var i :| 0 <= i < |ids| && ids[i] == w;
      assert l[i] == Encode(s, w);
    }
  }

  // ---------------------------------------------------------------------
  // Patches.

  /**
   * Rewriting one voting row in place, keeping its title, leaves every
   * tree, every other voting's representation and well-formedness alone.
   */
  lemma RowRewrite(s: Store, v: Id, row: Voting, r: Store)
    requires v in s.votings && row.title == s.votings[v].title
    requires r == s.(votings := s.votings[v := row])
    ensures r.votings.Keys == s.votings.Keys
    ensures forall w :: EncodePages(r, w) == EncodePages(s, w)
    ensures forall w :: w in s.votings && w != v ==> RetrieveVoting(r, w) == RetrieveVoting(s, w)
    ensures WellFormed(s) ==> WellFormed(r)
  {
    assert r.votings.Keys == s.votings.Keys;
    forall w ensures EncodePages(r, w) == EncodePages(s, w) {
      TreeTablesDecide(s, r, w);
    }
  }

  /**
   * A logic patch the database accepts changes the two logic blobs of one
   * voting and nothing else: no tree, no other voting, no vote.  A string
   * is stored verbatim.
   */
  lemma PatchLogicEffect(s: Store, v: Id, pairs: Option<JsonValue>, hidden: Option<JsonValue>)
    requires v in s.votings && pairs != Some(JNull) && hidden != Some(JNull)
    ensures PatchLogic(s, v, pairs, hidden).Ok?
    ensures var r := PatchLogic(s, v, pairs, hidden).value;
      WellFormed(s) ==> WellFormed(r)
    ensures var r := PatchLogic(s, v, pairs, hidden).value;
      var before := Encode(s, v);
      Encode(r, v) == before.(questionAnswerPairs := TextOr(pairs, before.questionAnswerPairs),
                              hiddenPages := TextOr(hidden, before.hiddenPages))
    ensures var rep := Encode(PatchLogic(s, v, pairs, hidden).value, v);
      && (pairs.Some? && pairs.value.JStr? ==> rep.questionAnswerPairs == pairs.value.text)
      && (hidden.Some? && hidden.value.JStr? ==> rep.hiddenPages == hidden.value.text)
    ensures var r := PatchLogic(s, v, pairs, hidden).value;
      && (forall w :: w in s.votings && w != v ==> RetrieveVoting(r, w) == RetrieveVoting(s, w))
      && r.votes == s.votes
  {
    var row := s.votings[v];
    var row' := row.(questionAnswerPairs := TextOr(pairs, row.questionAnswerPairs),
                     hiddenPages := TextOr(hidden, row.hiddenPages));
    var r := s.(votings := s.votings[v := row']);
    assert PatchLogic(s, v, pairs, hidden) == Ok(r);
    RowRewrite(s, v, row', r);
  }

  /** Sending the same logic patch again, or sending back the blobs the response shows, changes nothing. */
  lemma PatchLogicRepeat(s: Store, v: Id, pairs: Option<JsonValue>, hidden: Option<JsonValue>)
    requires v in s.votings && pairs != Some(JNull) && hidden != Some(JNull)
    ensures PatchLogic(s, v, pairs, hidden).Ok?
    ensures var r := PatchLogic(s, v, pairs, hidden).value;
      var rep := Encode(r, v);
      && PatchLogic(r, v, pairs, hidden) == Ok(r)
      && PatchLogic(r, v, Some(JStr(rep.questionAnswerPairs)), Some(JStr(rep.hiddenPages))) == Ok(r)
  {
    var row := s.votings[v];
    var row' := row.(questionAnswerPairs := TextOr(pairs, row.questionAnswerPairs),
                     hiddenPages := TextOr(hidden, row.hiddenPages));
    var r := s.(votings := s.votings[v := row']);
    assert PatchLogic(s, v, pairs, hidden) == Ok(r);
    assert r.votings[v] == row';
    assert r.votings[v := row'] == r.votings;
  }

  /**
   * A submit patch the database accepts changes one voting's flag and
   * nothing else.
   */
  lemma PatchSubmitEffect(s: Store, v: Id, isSubmit: Option<JsonValue>)
    requires v in s.votings && (isSubmit.None? || FlagValue(isSubmit.value).Some?)
    ensures PatchSubmit(s, v, isSubmit).Ok?
    ensures var r := PatchSubmit(s, v, isSubmit).value;
      WellFormed(s) ==> WellFormed(r)
    ensures var r := PatchSubmit(s, v, isSubmit).value;
      var before := Encode(s, v);
      Encode(r, v) == before.(isSubmit := FlagOr(isSubmit, before.isSubmit))
    ensures var r := PatchSubmit(s, v, isSubmit).value;
      && (forall w :: w in s.votings && w != v ==> RetrieveVoting(r, w) == RetrieveVoting(s, w))
      && r.votes == s.votes
  {
    var row' := s.votings[v].(isSubmit := FlagOr(isSubmit, s.votings[v].isSubmit));
    var r := s.(votings := s.votings[v := row']);
    assert PatchSubmit(s, v, isSubmit) == Ok(r);
    RowRewrite(s, v, row', r);
  }

  /** Sending the same submit patch again, or sending back the flag the response shows, changes nothing. */
  lemma PatchSubmitRepeat(s: Store, v: Id, isSubmit: Option<JsonValue>)
    requires v in s.votings && (isSubmit.None? || FlagValue(isSubmit.value).Some?)
    ensures PatchSubmit(s, v, isSubmit).Ok?
    ensures var r := PatchSubmit(s, v, isSubmit).value;
      && PatchSubmit(r, v, isSubmit) == Ok(r)
      && PatchSubmit(r, v, Some(JBool(Encode(r, v).isSubmit))) == Ok(r)
  {
    var row' := s.votings[v].(isSubmit := FlagOr(isSubmit, s.votings[v].isSubmit));
    var r := s.(votings := s.votings[v := row']);
    assert PatchSubmit(s, v, isSubmit) == Ok(r);
    assert r.votings[v] == row';
    assert r.votings[v := row'] == r.votings;
  }

  /**
   * Examples of flags the boolean column refuses on save: JSON's own
   * "true" as a string, "yes", 2 and null; and some it accepts.
   */
  lemma FlagSpellings()
    ensures FlagValue(JStr("true")).None? && FlagValue(JStr("yes")).None?
    ensures FlagValue(JInt(2)).None? && FlagValue(JNull).None?
    ensures FlagValue(JStr("True")) == Some(true) && FlagValue(JInt(0)) == Some(false)
  {
  }

  /** Examples of the text a non-string value is stored as: Python's `str` of it. */
  lemma TextSpellings()
    ensures TextValue(JBool(true)) == Some("True") && TextValue(JBool(false)) == Some("False")
    ensures TextValue(JInt(0)) == Some("0") && TextValue(JInt(42)) == Some("42")
    ensures TextValue(JInt(-7)) == Some("-7") && TextValue(JInt(1203)) == Some("1203")
    ensures TextValue(JNull).None?
  {
    assert Digits(42) == Digits(4) + "2" == "42";
    assert Digits(7) == "7";
    assert "-" + Digits(7) == "-7";
    assert Digits(12) == Digits(1) + "2" == "12";
    assert Digits(120) == Digits(12) + "0" == "120";
    assert Digits(1203) == Digits(120) + "3" == "1203";
  }

  /** The number a string of decimal digits spells, most significant digit first. */
  function DecimalValue(t: string): nat {
    if t == [] then 0
    else
      var c := t[|t| - 1];
      var d := if '0' <= c <= '9' then (c as int) - ('0' as int) else 0;
      DecimalValue(t[..|t| - 1]) * 10 + d
  }

  /**
   * `Digits(n)` is the decimal numeral of `n`: nothing but digits, no
   * leading zero except for zero itself, and it spells `n` back.
   */
  lemma {:induction false} DigitsNumeral(n: nat)
    ensures |Digits(n)| >= 1
    ensures forall i :: 0 <= i < |Digits(n)| ==> '0' <= Digits(n)[i] <= '9'
    ensures Digits(n)[0] == '0' ==> n == 0
    ensures DecimalValue(Digits(n)) == n
    decreases n
  {
    var d := ['0', '1', '2', '3', '4', '5', '6', '7', '8', '9'][n % 10];
    assert (d as int) - ('0' as int) == n % 10;
    if n >= 10 {
      DigitsNumeral(n / 10);
      var t := Digits(n / 10) + [d];
      assert Digits(n) == t;
      assert t[..|t| - 1] == Digits(n / 10);
      assert t[0] == Digits(n / 10)[0];
    }
  }

  /**
   * A PUT to a patch endpoint from someone who is not the author: the
   * guarded update view refuses it, the patch endpoint rebuilds the voting
   * exactly as the author's own update would.
   */
  lemma PatchViewPutSkipsAuthor(s: Store, v: Id, x: VotingInput, requester: UserId)
    requires v in s.votings && DataOk(Incoming(x), false) && s.votings[v].author != requester
    ensures UpdateVoting(s, v, x, false, requester) == Err(NotAuthor)
    ensures PutOnPatchView(s, v, x, requester).Ok?
    ensures PutOnPatchView(s, v, x, requester) == UpdateVoting(s, v, x, false, s.votings[v].author)
  {
  }

  // ---------------------------------------------------------------------
  // Bulk vote submission.

  /** `if not pages`: the page listing is empty exactly when the voting owns no page. */
  lemma PagesOfEmpty(s: Store, v: Id)
    requires Closed(s)
    ensures PagesOf(s, v) == [] <==> forall p: Id :: !PageIn(s, p, v)
  {
    SelectComplete(s.pages, PageVoting, {v}, s.nextPage);
    forall p: Id | PageIn(s, p, v) ensures p in PagesOf(s, v) {
      assert PageVoting(s.pages[p]) in {v};
    }
    if PagesOf(s, v) != [] {
      assert PageIn(s, PagesOf(s, v)[0], v);
    }
  }

  /**
   * The outcome of a bulk submission, by cases, in the order the view
   * checks them: the voting must exist, must own a page, every entry must
   * be valid, and every entry's question must lie in the voting.  A refused
   * batch stores nothing.
   */
  lemma SubmitOutcomes(s: Store, users: set<UserId>, v: Id, entries: seq<VoteEntry>)
    requires Closed(s)
    ensures var r := SubmitVotes(s, users, v, entries);
      && (r == Err(NotFound) <==> v !in s.votings)
      && (r == Err(EmptyVoting) <==> v in s.votings && forall p: Id :: !PageIn(s, p, v))
      && (r == Err(Invalid) <==>
            && v in s.votings && (exists p: Id :: PageIn(s, p, v))
            && exists i :: 0 <= i < |entries| && !EntryOk(s, users, entries[i]))
      && (r == Err(OutOfScope) <==>
            && v in s.votings && (exists p: Id :: PageIn(s, p, v))
            && (forall i :: 0 <= i < |entries| ==> EntryOk(s, users, entries[i]))
            && exists i :: 0 <= i < |entries| && !QuestionIn(s, entries[i].question.value, v))
      && (r.Ok? <==>
            && v in s.votings && (exists p: Id :: PageIn(s, p, v))
            && forall i :: 0 <= i < |entries| ==>
                 EntryOk(s, users, entries[i]) && QuestionIn(s, entries[i].question.value, v))
  {
    PagesOfEmpty(s, v);
  }

  /**
   * A successful submission keeps the store well formed, keeps every
   * earlier vote, and leaves every voting's representation alone.
   */
  lemma SubmitKeepsStore(s: Store, users: set<UserId>, v: Id, entries: seq<VoteEntry>)
    requires WellFormed(s) && SubmitVotes(s, users, v, entries).Ok?
    ensures var r := SubmitVotes(s, users, v, entries).value;
      && WellFormed(r)
      && (forall k :: k in s.votes ==> k in r.votes && r.votes[k] == s.votes[k])
      && (forall w :: RetrieveVoting(r, w) == RetrieveVoting(s, w))
  {
    var r := SubmitVotes(s, users, v, entries).value;
    SubmitWellFormed(s, users, v, entries);
    forall w ensures RetrieveVoting(r, w) == RetrieveVoting(s, w) {
      TreeTablesDecide(s, r, w);
    }
  }

  /** Every stored vote names a live question and a live choice. */
  lemma SubmitWellFormed(s: Store, users: set<UserId>, v: Id, entries: seq<VoteEntry>)
    requires WellFormed(s) && SubmitVotes(s, users, v, entries).Ok?
    ensures WellFormed(SubmitVotes(s, users, v, entries).value)
  {
    SubmitAppends(s, users, v, entries);
    var rows := NewVotes(entries);
    forall i | 0 <= i < |rows| ensures rows[i].question in s.questions && rows[i].choice in s.choices {
      assert EntryOk(s, users, entries[i]);
    }
    WithVotesWellFormed(s, rows);
  }

  lemma WithVotesWellFormed(s: Store, rows: seq<Vote>)
    requires WellFormed(s)
    requires forall i :: 0 <= i < |rows| ==> rows[i].question in s.questions && rows[i].choice in s.choices
    ensures WellFormed(WithVotes(s, rows))
  {
    var r := WithVotes(s, rows);
    forall k | k in r.votes ensures r.votes[k].question in r.questions && r.votes[k].choice in r.choices {
      if k >= s.nextVote {
        AppendAt(s.votes, s.nextVote, rows, k);
      }
    }
  }

  /**
   * The view never checks that a vote's choice belongs to the vote's
   * question: a vote naming a question of the voting and any existing
   * choice at all is accepted.
   */
  lemma ChoiceNeedNotMatchQuestion(s: Store, users: set<UserId>, v: Id, u: UserId, q: Id, c: Id)
    requires Closed(s) && v in s.votings
    requires u in users && QuestionIn(s, q, v) && c in s.choices
    ensures SubmitVotes(s, users, v, [VoteEntry(Some(u), Some(q), Some(c))]).Ok?
  {
    PagesOfEmpty(s, v);
    assert PageIn(s, s.questions[q].page, v);
  }

  /** The vote table with `rows` appended under fresh ids. */
  function WithVotes(s: Store, rows: seq<Vote>): Store {
    s.(votes := Append(s.votes, s.nextVote, rows), nextVote := s.nextVote + |rows|)
  }

  /** A successful submission appends one vote per entry to the vote table. */
  lemma SubmitAppends(s: Store, users: set<UserId>, v: Id, entries: seq<VoteEntry>)
    requires SubmitVotes(s, users, v, entries).Ok?
    ensures forall i :: 0 <= i < |entries| ==> Complete(entries[i])
    ensures forall i :: 0 <= i < |entries| ==> QuestionIn(s, entries[i].question.value, v)
    ensures SubmitVotes(s, users, v, entries).value == WithVotes(s, NewVotes(entries))
  {
  }

  lemma WithVotesCount(s: Store, rows: seq<Vote>, c: Id)
    requires Closed(s)
    ensures CountVotes(WithVotes(s, rows), c) == CountVotes(s, c) + Matches(rows, VoteChoice, {c})
  {
    SelectAppendCount(s.votes, s.nextVote, rows, VoteChoice, {c});
  }

  lemma WithVotesListing(s: Store, v: Id, rows: seq<Vote>)
    requires Closed(s)
    requires forall i :: 0 <= i < |rows| ==> QuestionIn(s, rows[i].question, v)
    ensures var r := WithVotes(s, rows);
      Select(r.votes, VoteQuestion, QuestionSet(r, v), r.nextVote)
      == Select(s.votes, VoteQuestion, QuestionSet(s, v), s.nextVote) + Range(s.nextVote, r.nextVote)
  {
    var r := WithVotes(s, rows);
    var n := s.nextVote;
    var owners := QuestionSet(s, v);
    assert QuestionSet(r, v) == owners;
    forall k | n <= k < r.nextVote ensures k in r.votes && VoteQuestion(r.votes[k]) in owners {
      assert r.votes[k] == rows[k - n];
    }
    SelectAppend(s.votes, n, r.votes, r.nextVote, VoteQuestion, owners);
  }

  lemma WithVotesStatistic(s: Store, v: Id, rows: seq<Vote>)
    requires Closed(s)
    requires forall i :: 0 <= i < |rows| ==> QuestionIn(s, rows[i].question, v)
    ensures DetailStatistic(WithVotes(s, rows), v) == DetailStatistic(s, v) + rows
  {
    var r := WithVotes(s, rows);
    var n := s.nextVote;
    WithVotesListing(s, v, rows);
    var ids: seq<Id> := Select(s.votes, VoteQuestion, QuestionSet(s, v), n);
    var ids': seq<Id> := Select(r.votes, VoteQuestion, QuestionSet(r, v), r.nextVote);
    var lhs := DetailStatistic(r, v);
    var rhs := DetailStatistic(s, v) + rows;
    assert |lhs| == |ids'| == |ids| + |rows|;
    forall i | 0 <= i < |lhs| ensures lhs[i] == rhs[i] {
      if i < |ids| {
        assert ids'[i] == ids[i] && ids[i] in s.votes && ids[i] < n;
        assert lhs[i] == r.votes[ids[i]] == s.votes[ids[i]];
      } else {
        var k: Id := n + (i - |ids|);
        assert ids'[i] == k;
        AppendAt(s.votes, n, rows, k);
        assert lhs[i] == r.votes[k] == rows[i - |ids|];
      }
    }
    assert lhs == rhs;
  }

  /**
   * After a successful submission, each choice's count has grown by the
   * number of submitted votes naming that choice.
   */
  lemma SubmitCounts(s: Store, users: set<UserId>, v: Id, entries: seq<VoteEntry>, c: Id)
    requires Closed(s) && SubmitVotes(s, users, v, entries).Ok?
    ensures forall i :: 0 <= i < |entries| ==> Complete(entries[i])
    ensures CountVotes(SubmitVotes(s, users, v, entries).value, c)
            == CountVotes(s, c) + Matches(NewVotes(entries), VoteChoice, {c})
  {
    SubmitAppends(s, users, v, entries);
    WithVotesCount(s, NewVotes(entries), c);
  }

  /**
   * After a successful submission, the voting's vote list is the old list
   * followed by the submitted votes, in the order they were sent.
   */
  lemma SubmitExtendsStatistic(s: Store, users: set<UserId>, v: Id, entries: seq<VoteEntry>)
    requires Closed(s) && SubmitVotes(s, users, v, entries).Ok?
    ensures forall i :: 0 <= i < |entries| ==> Complete(entries[i])
    ensures DetailStatistic(SubmitVotes(s, users, v, entries).value, v)
            == DetailStatistic(s, v) + NewVotes(entries)
  {
    SubmitAppends(s, users, v, entries);
    var rows := NewVotes(entries);
    assert forall i :: 0 <= i < |rows| ==> QuestionIn(s, rows[i].question, v);
    WithVotesStatistic(s, v, rows);
  }

  /**
   * The vote list holds every vote on a question of the voting, once each,
   * ascending by id; votes whose choice lies elsewhere are still listed.
   */
  lemma DetailStatisticComplete(s: Store, v: Id)
    requires Closed(s)
    ensures var ids := Select(s.votes, VoteQuestion, QuestionSet(s, v), s.nextVote);
      && Elements(ids) == (set k | k in s.votes && QuestionIn(s, s.votes[k].question, v))
      && |DetailStatistic(s, v)| == |set k | k in s.votes && QuestionIn(s, s.votes[k].question, v)|
  {
    var ids := Select(s.votes, VoteQuestion, QuestionSet(s, v), s.nextVote);
    SelectComplete(s.votes, VoteQuestion, QuestionSet(s, v), s.nextVote);
    IncreasingCard(ids);
  }

  // ---------------------------------------------------------------------
  // The tally.

  /** A choice's count is the number of votes naming it, whatever question they name. */
  lemma CountVotesCounts(s: Store, c: Id)
    requires Closed(s)
    ensures CountVotes(s, c) == |VotesFor(s, c)|
  {
    var r := Select(s.votes, VoteChoice, {c}, s.nextVote);
    SelectComplete(s.votes, VoteChoice, {c}, s.nextVote);
    IncreasingCard(r);
    assert Elements(r) == VotesFor(s, c);
  }

  /**
   * The tally lists every question of the voting and nothing else, once
   * each, in insertion order, with its stored title and type.
   */
  lemma TallyQuestions(s: Store, v: Id)
    requires Closed(s)
    ensures var t := Tally(s, v);
      && (forall i :: 0 <= i < |t| ==>
            && QuestionIn(s, t[i].question, v)
            && t[i].title == s.questions[t[i].question].title
            && t[i].qtype == s.questions[t[i].question].qtype)
      && (forall q: Id :: QuestionIn(s, q, v) ==> exists i :: 0 <= i < |t| && t[i].question == q)
      && (forall i, j :: 0 <= i < j < |t| ==> t[i].question < t[j].question)
  {
    var qs := QuestionsOfVoting(s, v);
    var t := Tally(s, v);
    SelectComplete(s.questions, QuestionPage, PageSet(s, v), s.nextQuestion);
    forall q: Id | QuestionIn(s, q, v) ensures exists i :: 0 <= i < |t| && t[i].question == q {
      assert QuestionPage(s.questions[q]) in PageSet(s, v);
      var i :| 0 <= i < |qs| && qs[i] == q;
      assert t[i].question == q;
    }
  }

  /**
   * Each question of the tally lists every one of its choices, including
   * those nobody voted for, once each, in insertion order, each with the
   * number of votes naming it.
   */
  lemma TallyChoices(s: Store, v: Id, i: nat)
    requires Closed(s) && i < |Tally(s, v)|
    ensures var e := Tally(s, v)[i];
      && (forall j :: 0 <= j < |e.choices| ==>
            && e.choices[j].choice in s.choices
            && s.choices[e.choices[j].choice].question == e.question
            && e.choices[j].name == s.choices[e.choices[j].choice].name
            && e.choices[j].votes == |VotesFor(s, e.choices[j].choice)|)
      && (forall c: Id :: c in s.choices && s.choices[c].question == e.question ==>
            exists j :: 0 <= j < |e.choices| && e.choices[j].choice == c)
      && (forall j, k :: 0 <= j < k < |e.choices| ==> e.choices[j].choice < e.choices[k].choice)
  {
    var e := Tally(s, v)[i];
    var q := e.question;
    var cs := ChoicesOf(s, q);
    assert e == CountQuestion(s, q);
    SelectComplete(s.choices, ChoiceQuestion, {q}, s.nextChoice);
    forall j | 0 <= j < |e.choices| ensures e.choices[j].votes == |VotesFor(s, e.choices[j].choice)| {
      CountVotesCounts(s, cs[j]);
    }
    forall c: Id | c in s.choices && s.choices[c].question == q
      ensures exists j :: 0 <= j < |e.choices| && e.choices[j].choice == c
    {
      assert ChoiceQuestion(s.choices[c]) in {q};
      var j :| 0 <= j < |cs| && cs[j] == c;
      assert e.choices[j].choice == c;
    }
  }
}
