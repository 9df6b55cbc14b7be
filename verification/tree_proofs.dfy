/**
 * What construction and replacement do to the stored tree, seen through the
 * nested representation: the representation of a built voting reproduces the
 * payload, and the representation of everything else is left alone.
 */
module TreeProofs {
  import opened Wrappers
  import opened Tables
  import opened Models
  import opened Serializers

  // ---------------------------------------------------------------------
  // Frames: two stores that hold the same rows below a parent encode that
  // parent identically.

  ghost predicate SameChoicesOf(s: Store, s': Store, q: Id) {
    && (forall k :: (k < s.nextChoice && k in s.choices && s.choices[k].question == q)
               <==> (k < s'.nextChoice && k in s'.choices && s'.choices[k].question == q))
    && (forall k :: k < s.nextChoice && k in s.choices && s.choices[k].question == q ==>
               k in s'.choices && s'.choices[k] == s.choices[k])
  }

  ghost predicate SameQuestion(s: Store, s': Store, q: Id) {
    q in s.questions && q in s'.questions && s'.questions[q] == s.questions[q] && SameChoicesOf(s, s', q)
  }

  ghost predicate SameQuestionsOf(s: Store, s': Store, p: Id) {
    && (forall k :: (k < s.nextQuestion && k in s.questions && s.questions[k].page == p)
               <==> (k < s'.nextQuestion && k in s'.questions && s'.questions[k].page == p))
    && (forall k :: k < s.nextQuestion && k in s.questions && s.questions[k].page == p ==> SameQuestion(s, s', k))
  }

  ghost predicate SamePage(s: Store, s': Store, p: Id) {
    p in s.pages && p in s'.pages && s'.pages[p] == s.pages[p] && SameQuestionsOf(s, s', p)
  }

  ghost predicate SamePagesOf(s: Store, s': Store, v: Id) {
    && (forall k :: (k < s.nextPage && k in s.pages && s.pages[k].voting == v)
               <==> (k < s'.nextPage && k in s'.pages && s'.pages[k].voting == v))
    && (forall k :: k < s.nextPage && k in s.pages && s.pages[k].voting == v ==> SamePage(s, s', k))
  }

  lemma EncodeChoicesSame(s: Store, s': Store, q: Id)
    requires SameChoicesOf(s, s', q)
    ensures EncodeChoices(s', q) == EncodeChoices(s, q)
  {
    SelectSame(s.choices, ChoiceQuestion, {q}, s.nextChoice, s'.choices, ChoiceQuestion, {q}, s'.nextChoice);
  }

  lemma EncodeQuestionSame(s: Store, s': Store, q: Id)
    requires SameQuestion(s, s', q)
    ensures EncodeQuestion(s', q) == EncodeQuestion(s, q)
  {
    EncodeChoicesSame(s, s', q);
  }

  lemma EncodeQuestionsSame(s: Store, s': Store, p: Id)
    requires SameQuestionsOf(s, s', p)
    ensures EncodeQuestions(s', p) == EncodeQuestions(s, p)
  {
    SelectSame(s.questions, QuestionPage, {p}, s.nextQuestion, s'.questions, QuestionPage, {p}, s'.nextQuestion);
    var ids := QuestionsOf(s, p);
    forall i | 0 <= i < |ids| ensures EncodeQuestion(s', ids[i]) == EncodeQuestion(s, ids[i]) {
      EncodeQuestionSame(s, s', ids[i]);
    }
  }

  lemma EncodePageSame(s: Store, s': Store, p: Id)
    requires SamePage(s, s', p)
    ensures EncodePage(s', p) == EncodePage(s, p)
  {
    EncodeQuestionsSame(s, s', p);
  }

  lemma EncodePagesSame(s: Store, s': Store, v: Id)
    requires SamePagesOf(s, s', v)
    ensures EncodePages(s', v) == EncodePages(s, v)
  {
    SelectSame(s.pages, PageVoting, {v}, s.nextPage, s'.pages, PageVoting, {v}, s'.nextPage);
    var ids := PagesOf(s, v);
    forall i | 0 <= i < |ids| ensures EncodePage(s', ids[i]) == EncodePage(s, ids[i]) {
      EncodePageSame(s, s', ids[i]);
    }
  }

  // ---------------------------------------------------------------------
  // Growth: rows added under fresh ids whose parents are themselves fresh
  // leave every old row's encoding alone.

  /** `r` adds questions and choices to `s`, and every new choice belongs to a new question. */
  ghost predicate GrowsBelowPages(s: Store, r: Store) {
    && Closed(s)
    && Grows(s.questions, s.nextQuestion, r.questions, r.nextQuestion)
    && Grows(s.choices, s.nextChoice, r.choices, r.nextChoice)
    && (forall k :: s.nextChoice <= k < r.nextChoice ==> r.choices[k].question >= s.nextQuestion)
  }

  /** `r` adds pages, questions and choices to `s`, each new question on a new page. */
  ghost predicate GrowsBelowVotings(s: Store, r: Store) {
    && GrowsBelowPages(s, r)
    && Grows(s.pages, s.nextPage, r.pages, r.nextPage)
    && (forall k :: s.nextQuestion <= k < r.nextQuestion ==> r.questions[k].page >= s.nextPage)
  }

  lemma KeepQuestion(s: Store, r: Store, q: Id)
    requires GrowsBelowPages(s, r) && q in s.questions
    ensures SameQuestion(s, r, q)
  {
  }

  lemma KeepPage(s: Store, r: Store, p: Id)
    requires GrowsBelowVotings(s, r) && p in s.pages
    ensures SamePage(s, r, p)
  {
    forall k | k < s.nextQuestion && k in s.questions && s.questions[k].page == p
      ensures SameQuestion(s, r, k)
    {
      KeepQuestion(s, r, k);
    }
  }

  // ---------------------------------------------------------------------
  // A fresh id has no children yet.

  lemma FreshQuestionHasNoChoices(s: Store)
    requires Sound(s)
    ensures ChoicesOf(s, s.nextQuestion) == []
  {
    forall k | k in s.choices ensures ChoiceQuestion(s.choices[k]) !in {s.nextQuestion} {
      assert s.choices[k].question in s.questions;
    }
    SelectSame(s.choices, ChoiceQuestion, {s.nextQuestion}, s.nextChoice, s.choices, ChoiceQuestion, {s.nextQuestion}, 0);
  }

  lemma FreshPageHasNoQuestions(s: Store)
    requires Sound(s)
    ensures QuestionsOf(s, s.nextPage) == []
  {
    forall k | k in s.questions ensures QuestionPage(s.questions[k]) !in {s.nextPage} {
      assert s.questions[k].page in s.pages;
    }
    SelectSame(s.questions, QuestionPage, {s.nextPage}, s.nextQuestion, s.questions, QuestionPage, {s.nextPage}, 0);
  }

  lemma FreshVotingHasNoPages(s: Store)
    requires Sound(s)
    ensures PagesOf(s, s.nextVoting) == []
  {
    forall k | k in s.pages ensures PageVoting(s.pages[k]) !in {s.nextVoting} {
      assert s.pages[k].voting in s.votings;
    }
    SelectSame(s.pages, PageVoting, {s.nextVoting}, s.nextPage, s.pages, PageVoting, {s.nextVoting}, 0);
  }

  // ---------------------------------------------------------------------
  // Forgetting ids distributes over concatenation.

  lemma StripQuestionsAppend(a: seq<QuestionRep>, b: seq<QuestionRep>)
    ensures StripQuestions(a + b) == StripQuestions(a) + StripQuestions(b)
  {
    var ab := a + b;
    forall i | 0 <= i < |ab| ensures StripQuestions(ab)[i] == (StripQuestions(a) + StripQuestions(b))[i] {
      if i >= |a| {
        assert ab[i] == b[i - |a|];
      }
    }
  }

  lemma StripPagesAppend(a: seq<PageRep>, b: seq<PageRep>)
    ensures StripPages(a + b) == StripPages(a) + StripPages(b)
  {
    var ab := a + b;
    forall i | 0 <= i < |ab| ensures StripPages(ab)[i] == (StripPages(a) + StripPages(b))[i] {
      if i >= |a| {
        assert ab[i] == b[i - |a|];
      }
    }
  }

  lemma QuestionShapesCons(qs: seq<QuestionInput>)
    requires qs != []
    ensures QuestionShapes(qs) == [QuestionShape(qs[0])] + QuestionShapes(qs[1..])
  {
  }

  lemma PageShapesCons(ps: seq<PageInput>)
    requires ps != []
    ensures PageShapes(ps) == [PageShape(ps[0])] + PageShapes(ps[1..])
  {
  }

  // ---------------------------------------------------------------------
  // Shapes of what construction adds.

  /** Appending `y == x + [a]` and then `b` is appending `[a] + b`. */
  lemma SnocThen<T>(x: seq<T>, y: seq<T>, z: seq<T>, a: T, b: seq<T>, c: seq<T>)
    requires y == x + [a] && z == y + b && c == [a] + b
    ensures z == x + c
  {
  }

  lemma EmptyThen<T>(x: seq<T>, z: seq<T>, c: seq<T>)
    requires |x| == 0 && z == x + c
    ensures z == c
  {
  }

  lemma AddQuestionSound(s: Store, p: Id, q: QuestionInput)
    requires Sound(s) && p in s.pages
    ensures Sound(AddQuestion(s, p, q))
    ensures AddQuestion(s, p, q).pages == s.pages
  {
    AddQuestionEffect(s, p, q);
  }

  lemma AddQuestionGrows(s: Store, p: Id, q: QuestionInput)
    requires Closed(s)
    ensures GrowsBelowPages(s, AddQuestion(s, p, q))
  {
    AddQuestionEffect(s, p, q);
  }

  lemma {:induction false} AddQuestionsSound(s: Store, p: Id, qs: seq<QuestionInput>)
    requires Sound(s) && p in s.pages
    ensures Sound(AddQuestions(s, p, qs))
    decreases |qs|
  {
    if qs != [] {
      var s1 := AddQuestion(s, p, qs[0]);
      var r := AddQuestions(s1, p, qs[1..]);
      assert AddQuestions(s, p, qs) == r;
      AddQuestionSound(s, p, qs[0]);
      AddQuestionsSound(s1, p, qs[1..]);
    }
  }

  /** The new question lists exactly the choices added with it. */
  lemma AddQuestionChoiceIds(s: Store, p: Id, q: QuestionInput)
    requires Sound(s)
    ensures var r := AddQuestion(s, p, q);
      ChoicesOf(r, s.nextQuestion) == Range(s.nextChoice, r.nextChoice)
  {
    var r := AddQuestion(s, p, q);
    var n := s.nextQuestion;
    AddQuestionEffect(s, p, q);
    FreshQuestionHasNoChoices(s);
    assert Below(s.choices, s.nextChoice);
    forall k | s.nextChoice <= k < r.nextChoice
      ensures k in r.choices && ChoiceQuestion(r.choices[k]) in {n}
    {
      assert r.choices[k] == NewChoice(n, q.choices.GetOr([])[k - s.nextChoice]);
    }
    SelectAppend(s.choices, s.nextChoice, r.choices, r.nextChoice, ChoiceQuestion, {n});
  }

  lemma AddQuestionChoices(s: Store, p: Id, q: QuestionInput)
    requires Sound(s)
    ensures var r := AddQuestion(s, p, q);
      s.nextQuestion in r.questions &&
      StripQuestions([EncodeQuestion(r, s.nextQuestion)]) == [QuestionShape(q)]
  {
    var r := AddQuestion(s, p, q);
    var n := s.nextQuestion;
    var cs := q.choices.GetOr([]);
    AddQuestionEffect(s, p, q);
    AddQuestionChoiceIds(s, p, q);
    var cids := ChoicesOf(r, n);
    assert cids == Range(s.nextChoice, r.nextChoice);
    var enc := EncodeChoices(r, n);
    assert StripChoices(enc) == ChoiceShapes(cs) by {
      forall i | 0 <= i < |cs| ensures StripChoices(enc)[i] == ChoiceShapes(cs)[i] {
        assert cids[i] == s.nextChoice + i;
        assert r.choices[cids[i]] == NewChoice(n, cs[i]);
      }
    }
  }

  lemma AddQuestionIds(s: Store, p: Id, q: QuestionInput)
    requires Closed(s)
    ensures var r := AddQuestion(s, p, q);
      s.nextQuestion in r.questions && QuestionsOf(r, p) == QuestionsOf(s, p) + [s.nextQuestion]
  {
    var r := AddQuestion(s, p, q);
    var n := s.nextQuestion;
    AddQuestionEffect(s, p, q);
    SelectAppend(s.questions, n, r.questions, n + 1, QuestionPage, {p});
    assert Range(n, n + 1) == [n];
  }

  /** The page lists its old questions unchanged, then the new one. */
  lemma AddQuestionListing(s: Store, p: Id, q: QuestionInput)
    requires Sound(s) && p in s.pages
    ensures var r := AddQuestion(s, p, q);
      s.nextQuestion in r.questions &&
      EncodeQuestions(r, p) == EncodeQuestions(s, p) + [EncodeQuestion(r, s.nextQuestion)]
  {
    var r := AddQuestion(s, p, q);
    var n := s.nextQuestion;
    AddQuestionGrows(s, p, q);
    AddQuestionIds(s, p, q);
    var old_ids := QuestionsOf(s, p);
    var ids := QuestionsOf(r, p);
    var lhs := EncodeQuestions(r, p);
    var rhs := EncodeQuestions(s, p) + [EncodeQuestion(r, n)];
    forall i | 0 <= i < |ids| ensures lhs[i] == rhs[i] {
      if i < |old_ids| {
        KeepQuestion(s, r, old_ids[i]);
        EncodeQuestionSame(s, r, old_ids[i]);
      }
    }
    assert lhs == rhs;
  }

  lemma AddQuestionShape(s: Store, p: Id, q: QuestionInput)
    requires Sound(s) && p in s.pages
    ensures StripQuestions(EncodeQuestions(AddQuestion(s, p, q), p))
         == StripQuestions(EncodeQuestions(s, p)) + [QuestionShape(q)]
  {
    var r := AddQuestion(s, p, q);
    AddQuestionChoices(s, p, q);
    AddQuestionListing(s, p, q);
    StripQuestionsAppend(EncodeQuestions(s, p), [EncodeQuestion(r, s.nextQuestion)]);
  }

  lemma {:induction false} AddQuestionsShape(s: Store, p: Id, qs: seq<QuestionInput>)
    requires Sound(s) && p in s.pages
    ensures StripQuestions(EncodeQuestions(AddQuestions(s, p, qs), p))
         == StripQuestions(EncodeQuestions(s, p)) + QuestionShapes(qs)
    decreases |qs|
  {
    if qs == [] {
      assert QuestionShapes(qs) == [];
    } else {
      var s1 := AddQuestion(s, p, qs[0]);
      var r := AddQuestions(s1, p, qs[1..]);
      assert AddQuestions(s, p, qs) == r;
      AddQuestionSound(s, p, qs[0]);
      AddQuestionShape(s, p, qs[0]);
      AddQuestionsShape(s1, p, qs[1..]);
      QuestionShapesCons(qs);
      SnocThen(StripQuestions(EncodeQuestions(s, p)), StripQuestions(EncodeQuestions(s1, p)),
               StripQuestions(EncodeQuestions(r, p)), QuestionShape(qs[0]), QuestionShapes(qs[1..]), QuestionShapes(qs));
    }
  }

  lemma AddPageSound(s: Store, v: Id, pg: PageInput)
    requires Sound(s) && v in s.votings
    ensures Sound(AddPage(s, v, pg))
    ensures AddPage(s, v, pg).votings == s.votings
  {
    var m := s.nextPage;
    var s1 := AddPageRow(s, NewPage(v, pg));
    var r := AddQuestions(s1, m, pg.questions.GetOr([]));
    assert AddPage(s, v, pg) == r;
    PageRowSound(s, v, pg);
    AddQuestionsSound(s1, m, pg.questions.GetOr([]));
    assert r.votings == s1.votings;
  }

  lemma AddPageGrows(s: Store, v: Id, pg: PageInput)
    requires Closed(s)
    ensures GrowsBelowVotings(s, AddPage(s, v, pg))
  {
    AddPageEffect(s, v, pg);
  }

  lemma {:induction false} AddPagesSound(s: Store, v: Id, ps: seq<PageInput>)
    requires Sound(s) && v in s.votings
    ensures Sound(AddPages(s, v, ps))
    decreases |ps|
  {
    if ps != [] {
      var s1 := AddPage(s, v, ps[0]);
      var r := AddPages(s1, v, ps[1..]);
      assert AddPages(s, v, ps) == r;
      AddPageSound(s, v, ps[0]);
      AddPagesSound(s1, v, ps[1..]);
    }
  }

  /** The page row alone, before its questions, keeps the store sound. */
  lemma PageRowSound(s: Store, v: Id, pg: PageInput)
    requires Sound(s) && v in s.votings
    ensures Sound(AddPageRow(s, NewPage(v, pg)))
  {
  }

  /** A page row just added has no questions yet. */
  lemma PageRowHasNoQuestions(s: Store, v: Id, pg: PageInput)
    requires Sound(s)
    ensures QuestionsOf(AddPageRow(s, NewPage(v, pg)), s.nextPage) == []
  {
    FreshPageHasNoQuestions(s);
  }

  lemma AddPageQuestions(s: Store, v: Id, pg: PageInput)
    requires Sound(s) && v in s.votings
    ensures StripQuestions(EncodeQuestions(AddPage(s, v, pg), s.nextPage)) == QuestionShapes(pg.questions.GetOr([]))
  {
    var s1 := AddPageRow(s, NewPage(v, pg));
    AddPageIs(s, v, pg, s1);
    PageRowQuestions(s, v, pg, s1);
  }

  lemma AddPageIs(s: Store, v: Id, pg: PageInput, s1: Store)
    requires s1 == AddPageRow(s, NewPage(v, pg))
    ensures AddPage(s, v, pg) == AddQuestions(s1, s.nextPage, pg.questions.GetOr([]))
  {
  }

  lemma PageRowQuestions(s: Store, v: Id, pg: PageInput, s1: Store)
    requires Sound(s) && v in s.votings
    requires s1 == AddPageRow(s, NewPage(v, pg))
    ensures StripQuestions(EncodeQuestions(AddQuestions(s1, s.nextPage, pg.questions.GetOr([])), s.nextPage))
         == QuestionShapes(pg.questions.GetOr([]))
  {
    PageRowSound(s, v, pg);
    PageRowHasNoQuestions(s, v, pg);
    QuestionsOntoEmpty(s1, s.nextPage, pg.questions.GetOr([]));
  }

  /** Questions added to a page that has none are exactly the page's questions. */
  lemma QuestionsOntoEmpty(s: Store, p: Id, qs: seq<QuestionInput>)
    requires Sound(s) && p in s.pages && QuestionsOf(s, p) == []
    ensures StripQuestions(EncodeQuestions(AddQuestions(s, p, qs), p)) == QuestionShapes(qs)
  {
    AddQuestionsShape(s, p, qs);
    EmptyThen(StripQuestions(EncodeQuestions(s, p)), StripQuestions(EncodeQuestions(AddQuestions(s, p, qs), p)), QuestionShapes(qs));
  }

  lemma AddPageTree(s: Store, v: Id, pg: PageInput)
    requires Sound(s) && v in s.votings
    ensures var r := AddPage(s, v, pg);
      s.nextPage in r.pages &&
      StripPages([EncodePage(r, s.nextPage)]) == [PageShape(pg)]
  {
    AddPageEffect(s, v, pg);
    AddPageQuestions(s, v, pg);
  }

  lemma AddPageIds(s: Store, v: Id, pg: PageInput)
    requires Closed(s)
    ensures var r := AddPage(s, v, pg);
      s.nextPage in r.pages && PagesOf(r, v) == PagesOf(s, v) + [s.nextPage]
  {
    var r := AddPage(s, v, pg);
    var m := s.nextPage;
    AddPageEffect(s, v, pg);
    SelectAppend(s.pages, m, r.pages, m + 1, PageVoting, {v});
    assert Range(m, m + 1) == [m];
  }

  /** The voting lists its old pages unchanged, then the new one. */
  lemma AddPageListing(s: Store, v: Id, pg: PageInput)
    requires Sound(s) && v in s.votings
    ensures var r := AddPage(s, v, pg);
      s.nextPage in r.pages &&
      EncodePages(r, v) == EncodePages(s, v) + [EncodePage(r, s.nextPage)]
  {
    var r := AddPage(s, v, pg);
    var m := s.nextPage;
    AddPageGrows(s, v, pg);
    AddPageIds(s, v, pg);
    var old_ids := PagesOf(s, v);
    var ids := PagesOf(r, v);
    var lhs := EncodePages(r, v);
    var rhs := EncodePages(s, v) + [EncodePage(r, m)];
    forall i | 0 <= i < |ids| ensures lhs[i] == rhs[i] {
      if i < |old_ids| {
        KeepPage(s, r, old_ids[i]);
        EncodePageSame(s, r, old_ids[i]);
      }
    }
    assert lhs == rhs;
  }

  lemma AddPageShape(s: Store, v: Id, pg: PageInput)
    requires Sound(s) && v in s.votings
    ensures StripPages(EncodePages(AddPage(s, v, pg), v)) == StripPages(EncodePages(s, v)) + [PageShape(pg)]
  {
    var r := AddPage(s, v, pg);
    AddPageTree(s, v, pg);
    AddPageListing(s, v, pg);
    StripPagesAppend(EncodePages(s, v), [EncodePage(r, s.nextPage)]);
  }

  /**
   * Building pages onto voting `v` appends, after whatever `v` already
   * lists, exactly the tree the payload describes.
   */
  lemma {:induction false} AddPagesShape(s: Store, v: Id, ps: seq<PageInput>)
    requires Sound(s) && v in s.votings
    ensures StripPages(EncodePages(AddPages(s, v, ps), v)) == StripPages(EncodePages(s, v)) + PageShapes(ps)
    decreases |ps|
  {
    if ps == [] {
      assert PageShapes(ps) == [];
    } else {
      var s1 := AddPage(s, v, ps[0]);
      var r := AddPages(s1, v, ps[1..]);
      assert AddPages(s, v, ps) == r;
      AddPageSound(s, v, ps[0]);
      AddPageShape(s, v, ps[0]);
      AddPagesShape(s1, v, ps[1..]);
      PageShapesCons(ps);
      SnocThen(StripPages(EncodePages(s, v)), StripPages(EncodePages(s1, v)),
               StripPages(EncodePages(r, v)), PageShape(ps[0]), PageShapes(ps[1..]), PageShapes(ps));
    }
  }

  // ---------------------------------------------------------------------
  // Column widths survive construction of validated data.

  lemma AddQuestionBounded(s: Store, p: Id, q: QuestionInput)
    requires Closed(s) && Bounded(s) && QuestionOk(q, true)
    ensures Closed(AddQuestion(s, p, q)) && Bounded(AddQuestion(s, p, q))
  {
    AddQuestionEffect(s, p, q);
    var r := AddQuestion(s, p, q);
    forall k | k in r.choices ensures |r.choices[k].name| <= NameMax {
      if s.nextChoice <= k {
        var i := k - s.nextChoice;
        assert q.choices.Some? && ChoiceOk(q.choices.value[i], true);
        assert r.choices[k] == NewChoice(s.nextQuestion, q.choices.value[i]);
      } else {
        assert k in s.choices;
      }
    }
  }

  lemma {:induction false} AddQuestionsBounded(s: Store, p: Id, qs: seq<QuestionInput>)
    requires Closed(s) && Bounded(s) && forall i :: 0 <= i < |qs| ==> QuestionOk(qs[i], true)
    ensures Closed(AddQuestions(s, p, qs)) && Bounded(AddQuestions(s, p, qs))
    decreases |qs|
  {
    if qs != [] {
      AddQuestionBounded(s, p, qs[0]);
      assert AddQuestions(s, p, qs) == AddQuestions(AddQuestion(s, p, qs[0]), p, qs[1..]);
      AddQuestionsBounded(AddQuestion(s, p, qs[0]), p, qs[1..]);
    }
  }

  lemma NewPageBounded(s: Store, v: Id, pg: PageInput)
    requires Closed(s) && Bounded(s) && CharOk(pg.title, TitleMax)
    ensures var s1 := AddPageRow(s, NewPage(v, pg));
      Closed(s1) && Bounded(s1)
  {
    assert |NewPage(v, pg).title| <= TitleMax;
  }

  lemma PageQuestionsBounded(s: Store, v: Id, pg: PageInput)
    requires Closed(s) && Bounded(s) && CharOk(pg.title, TitleMax)
    requires forall i :: 0 <= i < |pg.questions.GetOr([])| ==> QuestionOk(pg.questions.GetOr([])[i], true)
    ensures Closed(AddPage(s, v, pg)) && Bounded(AddPage(s, v, pg))
  {
    NewPageBounded(s, v, pg);
    var s1 := AddPageRow(s, NewPage(v, pg));
    var r := AddQuestions(s1, s.nextPage, pg.questions.GetOr([]));
    assert AddPage(s, v, pg) == r;
    AddQuestionsBounded(s1, s.nextPage, pg.questions.GetOr([]));
  }

  lemma AddPageBounded(s: Store, v: Id, pg: PageInput)
    requires Closed(s) && Bounded(s) && PageOk(pg, true)
    ensures Closed(AddPage(s, v, pg)) && Bounded(AddPage(s, v, pg))
  {
    assert forall i :: 0 <= i < |pg.questions.GetOr([])| ==> QuestionOk(pg.questions.GetOr([])[i], true) by {
    }
    PageQuestionsBounded(s, v, pg);
  }

  lemma {:induction false} AddPagesBounded(s: Store, v: Id, ps: seq<PageInput>)
    requires Closed(s) && Bounded(s) && PagesOk(ps, true)
    ensures Closed(AddPages(s, v, ps)) && Bounded(AddPages(s, v, ps))
    decreases |ps|
  {
    if ps != [] {
      assert PageOk(ps[0], true);
      AddPageBounded(s, v, ps[0]);
      assert AddPages(s, v, ps) == AddPages(AddPage(s, v, ps[0]), v, ps[1..]);
      assert PagesOk(ps[1..], true) by {
        forall i | 0 <= i < |ps[1..]| ensures PageOk(ps[1..][i], true) {
          assert ps[1..][i] == ps[i + 1];
        }
      }
      AddPagesBounded(AddPage(s, v, ps[0]), v, ps[1..]);
    }
  }

  // ---------------------------------------------------------------------
  // Other votings: neither building nor deleting a voting's pages changes
  // how any other voting is represented.

  lemma KeepPagesOf(s: Store, r: Store, w: Id)
    requires GrowsBelowVotings(s, r)
    requires forall k :: s.nextPage <= k < r.nextPage ==> r.pages[k].voting != w
    ensures EncodePages(r, w) == EncodePages(s, w)
  {
    forall k | k < s.nextPage && k in s.pages && s.pages[k].voting == w ensures SamePage(s, r, k) {
      KeepPage(s, r, k);
    }
    EncodePagesSame(s, r, w);
  }

  lemma AddPagesKeepsOthers(s: Store, v: Id, ps: seq<PageInput>, w: Id)
    requires Closed(s) && w != v
    ensures EncodePages(AddPages(s, v, ps), w) == EncodePages(s, w)
  {
    KeepPagesOf(s, AddPages(s, v, ps), w);
  }

  lemma DeleteKeepsOthers(s: Store, v: Id, w: Id)
    requires w != v
    ensures EncodePages(DeletePages(s, v), w) == EncodePages(s, w)
  {
    var r := DeletePages(s, v);
    forall p | p < s.nextPage && p in s.pages && s.pages[p].voting == w ensures SamePage(s, r, p) {
      forall k | k < s.nextQuestion && k in s.questions && s.questions[k].page == p
        ensures SameQuestion(s, r, k)
      {
      }
    }
    EncodePagesSame(s, r, w);
  }

  /**
   * A voting's tree is read from the page, question and choice tables
   * alone: changing the voting table or the vote table leaves it alone.
   */
  lemma TreeTablesDecide(s: Store, s': Store, w: Id)
    requires s'.pages == s.pages && s'.nextPage == s.nextPage
    requires s'.questions == s.questions && s'.nextQuestion == s.nextQuestion
    requires s'.choices == s.choices && s'.nextChoice == s.nextChoice
    ensures EncodePages(s', w) == EncodePages(s, w)
  {
    forall k | k < s.nextPage && k in s.pages && s.pages[k].voting == w ensures SamePage(s, s', k) {
      forall j | j < s.nextQuestion && j in s.questions && s.questions[j].page == k
        ensures SameQuestion(s, s', j)
      {
      }
    }
    EncodePagesSame(s, s', w);
  }

  // ---------------------------------------------------------------------
  // Create, end to end.

  lemma ConstructWellFormed(s: Store, d: VotingData, author: UserId)
    requires WellFormed(s) && d.pages.Some? && DataOk(d, true)
    ensures WellFormed(Construct(s, d, author))
  {
    var v := s.nextVoting;
    var s1 := AddVotingRow(s, NewVoting(d, author));
    var r := AddPages(s1, v, d.pages.value);
    assert Construct(s, d, author) == r;
    VotingRowWellFormed(s, d, author);
    AddPagesSound(s1, v, d.pages.value);
    AddPagesBounded(s1, v, d.pages.value);
  }

  /** The voting row alone keeps the store well formed. */
  lemma VotingRowWellFormed(s: Store, d: VotingData, author: UserId)
    requires WellFormed(s) && DataOk(d, true)
    ensures WellFormed(AddVotingRow(s, NewVoting(d, author)))
  {
  }

  /** Pages built onto a voting that has none make up exactly the payload's tree. */
  lemma BuildOntoEmpty(s: Store, v: Id, ps: seq<PageInput>)
    requires Sound(s) && v in s.votings && PagesOf(s, v) == []
    ensures StripPages(EncodePages(AddPages(s, v, ps), v)) == PageShapes(ps)
  {
    AddPagesShape(s, v, ps);
    EmptyThen(StripPages(EncodePages(s, v)), StripPages(EncodePages(AddPages(s, v, ps), v)), PageShapes(ps));
  }

  lemma ConstructShape(s: Store, d: VotingData, author: UserId)
    requires Sound(s) && d.pages.Some?
    ensures StripPages(Encode(Construct(s, d, author), s.nextVoting).pages) == PageShapes(d.pages.value)
  {
    var v := s.nextVoting;
    var s1 := AddVotingRow(s, NewVoting(d, author));
    var r := AddPages(s1, v, d.pages.value);
    assert Construct(s, d, author) == r;
    FreshVotingHasNoPages(s);
    assert PagesOf(s1, v) == [];
    assert Sound(s1);
    BuildOntoEmpty(s1, v, d.pages.value);
    assert r.votings == s1.votings;
  }

  /** `Construct` is the voting row `s1` followed by its pages. */
  lemma ConstructIs(s: Store, d: VotingData, author: UserId, s1: Store)
    requires d.pages.Some?
    requires s1 == AddVotingRow(s, NewVoting(d, author))
    ensures Construct(s, d, author) == AddPages(s1, s.nextVoting, d.pages.value)
  {
  }

  /** Adding a voting row under the next id keeps every id below its counter. */
  lemma VotingRowClosed(s: Store, row: Voting, s1: Store)
    requires Closed(s)
    requires s1 == AddVotingRow(s, row)
    ensures Closed(s1)
  {
  }

  lemma ConstructKeepsPages(s: Store, d: VotingData, author: UserId, w: Id)
    requires Closed(s) && d.pages.Some? && w in s.votings
    ensures EncodePages(Construct(s, d, author), w) == EncodePages(s, w)
  {
    var v := s.nextVoting;
    var s1 := AddVotingRow(s, NewVoting(d, author));
    assert w < v;
    ConstructIs(s, d, author, s1);
    VotingRowClosed(s, NewVoting(d, author), s1);
    AddPagesKeepsOthers(s1, v, d.pages.value, w);
    TreeTablesDecide(s, s1, w);
  }

  lemma ConstructKeepsOthers(s: Store, d: VotingData, author: UserId, w: Id)
    requires Closed(s) && d.pages.Some? && w in s.votings
    ensures var r := Construct(s, d, author);
      w in r.votings && Encode(r, w) == Encode(s, w)
  {
    var v := s.nextVoting;
    var r := Construct(s, d, author);
    assert w < v;
    assert r.votings == s.votings[v := NewVoting(d, author)];
    ConstructKeepsPages(s, d, author, w);
  }

  /**
   * `VotingSerializer.create` on a well-formed store: the new voting gets a
   * fresh id and the caller as author; it takes the payload's scalar fields
   * (with the model defaults) and its representation reproduces the
   * payload's page, question and choice tree in payload order; every other
   * voting and every vote is untouched; the store stays well formed.
   */
  lemma ConstructBuildsPayload(s: Store, d: VotingData, author: UserId)
    requires WellFormed(s) && d.pages.Some? && DataOk(d, true)
    ensures var r := Construct(s, d, author);
      var v := s.nextVoting;
      && WellFormed(r)
      && v !in s.votings && v in r.votings
      && r.votings[v].author == author
      && r.votings[v].title == d.title.GetOr("")
      && r.votings[v].description == d.description.GetOr("")
      && r.votings[v].isSubmit == d.isSubmit.GetOr(false)
      && r.votings[v].questionAnswerPairs == d.questionAnswerPairs.GetOr("")
      && r.votings[v].hiddenPages == d.hiddenPages.GetOr("")
      && StripPages(Encode(r, v).pages) == PageShapes(d.pages.value)
      && (forall w :: w in s.votings ==> w in r.votings && Encode(r, w) == Encode(s, w))
      && r.votes == s.votes
  {
    ConstructWellFormed(s, d, author);
    ConstructShape(s, d, author);
    forall w | w in s.votings ensures w in Construct(s, d, author).votings && Encode(Construct(s, d, author), w) == Encode(s, w) {
      ConstructKeepsOthers(s, d, author, w);
    }
  }

  // ---------------------------------------------------------------------
  // Update, end to end.

  lemma ReplaceWellFormed(s: Store, v: Id, d: VotingData)
    requires WellFormed(s) && v in s.votings && DataOk(d, true)
    ensures WellFormed(Replace(s, v, d))
  {
    var s1 := s.(votings := s.votings[v := Overwrite(s.votings[v], d)]);
    var s2 := DeletePages(s1, v);
    var ps := d.pages.GetOr([]);
    assert Replace(s, v, d) == AddPages(s2, v, ps);
    assert WellFormed(s1);
    DeletePagesWellFormed(s1, v);
    assert PagesOk(ps, true);
    AddPagesSound(s2, v, ps);
    AddPagesBounded(s2, v, ps);
  }

  lemma ReplaceShape(s: Store, v: Id, d: VotingData)
    requires Sound(s) && v in s.votings
    ensures StripPages(Encode(Replace(s, v, d), v).pages) == PageShapes(d.pages.GetOr([]))
  {
    var s1 := s.(votings := s.votings[v := Overwrite(s.votings[v], d)]);
    var s2 := DeletePages(s1, v);
    var ps := d.pages.GetOr([]);
    var r := AddPages(s2, v, ps);
    assert Replace(s, v, d) == r;
    assert Sound(s1);
    DeletePagesSound(s1, v);
    NoPagesLeft(s1, v);
    BuildOntoEmpty(s2, v, ps);
    assert r.votings == s2.votings;
  }

  lemma ReplaceKeepsOthers(s: Store, v: Id, d: VotingData, w: Id)
    requires Closed(s) && v in s.votings && w in s.votings && w != v
    ensures var r := Replace(s, v, d);
      w in r.votings && Encode(r, w) == Encode(s, w)
  {
    var row := Overwrite(s.votings[v], d);
    var s1 := s.(votings := s.votings[v := row]);
    var s2 := DeletePages(s1, v);
    assert Replace(s, v, d) == AddPages(s2, v, d.pages.GetOr([]));
    TreeTablesDecide(s, s1, w);
    DeleteKeepsOthers(s1, v, w);
    AddPagesKeepsOthers(s2, v, d.pages.GetOr([]), w);
  }

  /** After an update, the voting's subtree consists of fresh rows only. */
  lemma ReplaceLeavesNoOldChild(s: Store, v: Id, d: VotingData)
    requires Sound(s) && v in s.votings
    ensures var r := Replace(s, v, d);
      && (forall p: Id :: PageIn(s, p, v) ==> p !in r.pages)
      && (forall q: Id :: QuestionIn(s, q, v) ==> q !in r.questions)
      && (forall c: Id :: ChoiceIn(s, c, v) ==> c !in r.choices)
      && (forall p: Id :: PageIn(r, p, v) ==> p >= s.nextPage)
      && (forall q: Id :: QuestionIn(r, q, v) ==> q >= s.nextQuestion)
      && (forall c: Id :: ChoiceIn(r, c, v) ==> c >= s.nextChoice)
  {
    var s1 := s.(votings := s.votings[v := Overwrite(s.votings[v], d)]);
    var s2 := DeletePages(s1, v);
    var r := Replace(s, v, d);
    assert r == AddPages(s2, v, d.pages.GetOr([]));
    assert Sound(s1);
    DeletePagesSound(s1, v);
    forall p: Id | p in r.pages && p < s.nextPage ensures r.pages[p].voting != v {
      assert p in s2.pages && r.pages[p] == s1.pages[p];
    }
    forall q: Id | q in r.questions && q < s.nextQuestion ensures !QuestionIn(r, q, v) {
      assert q in s2.questions && r.questions[q] == s2.questions[q];
      assert s2.questions[q].page in s2.pages;
    }
    forall c: Id | c in r.choices && c < s.nextChoice ensures !ChoiceIn(r, c, v) {
      assert c in s2.choices && r.choices[c] == s2.choices[c];
      assert s2.choices[c].question in s2.questions;
    }
  }

  /**
   * `VotingSerializer.update` on a well-formed store: the voting keeps its
   * id and author and takes the scalar fields the data carries; its tree is
   * exactly the one the payload describes (none when `pages` is absent);
   * none of its old pages, questions or choices survive and all its
   * children have fresh ids; votes on the old tree are gone and all other
   * votes stay; every other voting is represented as before; the store
   * stays well formed.
   */
  lemma ReplaceRebuildsPayload(s: Store, v: Id, d: VotingData)
    requires WellFormed(s) && v in s.votings && DataOk(d, true)
    ensures var r := Replace(s, v, d);
      var old_v := s.votings[v];
      && WellFormed(r)
      && v in r.votings
      && r.votings[v].author == old_v.author
      && r.votings[v].title == d.title.GetOr(old_v.title)
      && r.votings[v].description == d.description.GetOr(old_v.description)
      && r.votings[v].isSubmit == d.isSubmit.GetOr(old_v.isSubmit)
      && r.votings[v].questionAnswerPairs == d.questionAnswerPairs.GetOr(old_v.questionAnswerPairs)
      && r.votings[v].hiddenPages == d.hiddenPages.GetOr(old_v.hiddenPages)
      && StripPages(Encode(r, v).pages) == PageShapes(d.pages.GetOr([]))
      && (forall p: Id :: PageIn(s, p, v) ==> p !in r.pages)
      && (forall q: Id :: QuestionIn(s, q, v) ==> q !in r.questions)
      && (forall c: Id :: ChoiceIn(s, c, v) ==> c !in r.choices)
      && (forall p: Id :: PageIn(r, p, v) ==> p >= s.nextPage)
      && (forall q: Id :: QuestionIn(r, q, v) ==> q >= s.nextQuestion)
      && (forall c: Id :: ChoiceIn(r, c, v) ==> c >= s.nextChoice)
      && (forall x :: x in r.votes <==>
            x in s.votes && !QuestionIn(s, s.votes[x].question, v) && !ChoiceIn(s, s.votes[x].choice, v))
      && (forall x :: x in r.votes ==> r.votes[x] == s.votes[x])
      && (forall w :: w in s.votings && w != v ==> w in r.votings && Encode(r, w) == Encode(s, w))
  {
    var r := Replace(s, v, d);
    ReplaceWellFormed(s, v, d);
    ReplaceShape(s, v, d);
    ReplaceLeavesNoOldChild(s, v, d);
    ReplaceVotes(s, v, d);
    forall w | w in s.votings && w != v ensures w in r.votings && Encode(r, w) == Encode(s, w) {
      ReplaceKeepsOthers(s, v, d, w);
    }
  }

  lemma ReplaceVotes(s: Store, v: Id, d: VotingData)
    requires v in s.votings
    ensures var r := Replace(s, v, d);
      forall x :: x in r.votes <==>
        x in s.votes && !QuestionIn(s, s.votes[x].question, v) && !ChoiceIn(s, s.votes[x].choice, v)
    ensures var r := Replace(s, v, d);
      forall x :: x in r.votes ==> r.votes[x] == s.votes[x]
  {
    var s1 := s.(votings := s.votings[v := Overwrite(s.votings[v], d)]);
    assert Replace(s, v, d) == AddPages(DeletePages(s1, v), v, d.pages.GetOr([]));
    assert forall q: Id :: QuestionIn(s, q, v) <==> QuestionIn(s1, q, v);
    assert forall c: Id :: ChoiceIn(s, c, v) <==> ChoiceIn(s1, c, v);
  }
}
