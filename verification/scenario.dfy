/**
 * A worked example: a lunch poll with one page and two questions, created
 * by user 1 and answered by users 1 and 2.  One of the answers pairs the
 * food question with a drink choice; the view accepts it and the tally
 * counts it under the drink.
 */
module Scenario {
  import opened Wrappers
  import opened Tables
  import opened Models
  import opened Serializers
  import opened Views
  import opened ViewProofs

  const Food := QuestionInput(Some("Food?"), None, Some([ChoiceInput(Some("Pizza")), ChoiceInput(Some("Salad"))]))
  const Drink := QuestionInput(Some("Drink?"), Some("radio"), Some([ChoiceInput(Some("Tea")), ChoiceInput(Some("Coffee"))]))
  const Body := VotingInput(Some("Lunch"), Some("Where do we eat?"), Some(7), None, None, None,
                            Some([PageInput(Some("Main"), None, Some([Food, Drink]))]))

  /** Pizza twice; then user 1 answers the food question with the tea choice. */
  const Answers := [VoteEntry(Some(1), Some(0), Some(0)),
                    VoteEntry(Some(2), Some(0), Some(0)),
                    VoteEntry(Some(1), Some(0), Some(2))]

  const FoodChoices := map[0 := Choice(0, "Pizza"), 1 := Choice(0, "Salad")]
  const AllChoices := FoodChoices[2 := Choice(1, "Tea")][3 := Choice(1, "Coffee")]
  const AllQuestions := map[0 := Question(0, "Food?", "checkbox"), 1 := Question(0, "Drink?", "radio")]

  /** The store after user 1 creates the poll. */
  const Built := Store(map[0 := Voting("Lunch", "Where do we eat?", 1, false, "", "")], 1,
                       map[0 := Page(0, "Main", 0)], 1,
                       AllQuestions, 2,
                       AllChoices, 4,
                       map[], 0)

  lemma AppendTwo<T>(m: map<Id, T>, n: nat, a: T, b: T)
    ensures Append(m, n, [a, b]) == m[n := a][n + 1 := b]
  {
    assert [a, b][1..] == [b];
    assert [b][1..] == [];
    assert Append(m, n, [a, b]) == Append(m[n := a], n + 1, [b]);
    assert Append(m[n := a], n + 1, [b]) == Append(m[n := a][n + 1 := b], n + 2, []);
  }

  lemma BuildFood(s: Store)
    requires s.nextQuestion == 0 && s.nextChoice == 0 && s.choices == map[]
    ensures AddQuestion(s, 0, Food)
            == s.(questions := s.questions[0 := Question(0, "Food?", "checkbox")], nextQuestion := 1,
                  choices := FoodChoices, nextChoice := 2)
  {
    AppendTwo(s.choices, 0, Choice(0, "Pizza"), Choice(0, "Salad"));
    assert [NewChoice(0, ChoiceInput(Some("Pizza"))), NewChoice(0, ChoiceInput(Some("Salad")))]
        == [Choice(0, "Pizza"), Choice(0, "Salad")];
  }

  lemma BuildDrink(s: Store)
    requires s.nextQuestion == 1 && s.nextChoice == 2 && s.choices == FoodChoices
    ensures AddQuestion(s, 0, Drink)
            == s.(questions := s.questions[1 := Question(0, "Drink?", "radio")], nextQuestion := 2,
                  choices := AllChoices, nextChoice := 4)
  {
    AppendTwo(s.choices, 2, Choice(1, "Tea"), Choice(1, "Coffee"));
  }

  const MainPage := PageInput(Some("Main"), None, Some([Food, Drink]))

  lemma BuildPage(s: Store)
    requires s.nextPage == 0 && s.nextQuestion == 0 && s.nextChoice == 0
    requires s.pages == map[] && s.questions == map[] && s.choices == map[]
    ensures AddPage(s, 0, MainPage)
            == s.(pages := map[0 := Page(0, "Main", 0)], nextPage := 1,
                  questions := AllQuestions, nextQuestion := 2, choices := AllChoices, nextChoice := 4)
  {
    var s2 := s.(pages := map[0 := Page(0, "Main", 0)], nextPage := 1);
    assert AddPage(s, 0, MainPage) == AddQuestions(s2, 0, [Food, Drink]);
    BuildFood(s2);
    var s3 := AddQuestion(s2, 0, Food);
    BuildDrink(s3);
    assert AddQuestions(s2, 0, [Food, Drink]) == AddQuestions(s3, 0, [Drink]);
    assert AddQuestions(s3, 0, [Drink]) == AddQuestions(AddQuestion(s3, 0, Drink), 0, []);
  }

  /** The body's questions have no text with surrounding whitespace. */
  lemma QuestionsClean()
    ensures CleanQuestion(Food) == Food && CleanQuestion(Drink) == Drink
  {
    TrimKeeps("Food?");
    TrimKeeps("Drink?");
    TrimKeeps("radio");
    TrimKeeps("Pizza");
    TrimKeeps("Salad");
    TrimKeeps("Tea");
    TrimKeeps("Coffee");
    var fc := Food.choices.value;
    assert CleanChoice(fc[0]) == fc[0] && CleanChoice(fc[1]) == fc[1];
    assert seq(|fc|, i requires 0 <= i < |fc| => CleanChoice(fc[i])) == fc;
    var dc := Drink.choices.value;
    assert CleanChoice(dc[0]) == dc[0] && CleanChoice(dc[1]) == dc[1];
    assert seq(|dc|, i requires 0 <= i < |dc| => CleanChoice(dc[i])) == dc;
  }

  /** No text of the body has surrounding whitespace, so validation hands it on unchanged. */
  lemma BodyClean()
    ensures Incoming(Body) == BodyData
  {
    TrimKeeps("Lunch");
    TrimKeeps("Where do we eat?");
    TrimKeeps("Main");
    QuestionsClean();
    var qs := MainPage.questions.value;
    assert seq(|qs|, i requires 0 <= i < |qs| => CleanQuestion(qs[i])) == qs;
    assert CleanPage(MainPage) == MainPage;
    assert CleanPages([MainPage]) == [MainPage];
  }

  /** The body passes validation as a full (non-partial) body. */
  lemma BodyValid()
    ensures DataOk(BodyData, false)
  {
    assert ChoiceOk(ChoiceInput(Some("Pizza")), false) && ChoiceOk(ChoiceInput(Some("Salad")), false);
    assert ChoiceOk(ChoiceInput(Some("Tea")), false) && ChoiceOk(ChoiceInput(Some("Coffee")), false);
    assert QuestionOk(Food, false) && QuestionOk(Drink, false);
    assert PageOk(MainPage, false);
  }

  /** The data validation hands on for the body. */
  const BodyData := VotingData(Body.title, Body.description, None, None, None, Some([MainPage]))

  lemma DecodeBody()
    ensures Decode(Body, false) == Ok(BodyData)
  {
    BodyClean();
    BodyValid();
  }

  lemma ConstructBody()
    ensures Construct(EmptyStore, BodyData, 1) == Built
  {
    var d := BodyData;
    var s1 := AddVotingRow(EmptyStore, NewVoting(d, 1));
    assert d.pages.value == [MainPage];
    assert Construct(EmptyStore, d, 1) == AddPages(s1, 0, [MainPage]);
    assert AddPages(s1, 0, [MainPage]) == AddPages(AddPage(s1, 0, MainPage), 0, []);
    BuildPage(s1);
  }

  /** Two bodies that validate to the same data create the same voting. */
  lemma SameIncoming(s: Store, x: VotingInput, y: VotingInput, requester: UserId)
    requires Incoming(x) == Incoming(y)
    ensures CreateVoting(s, x, requester) == CreateVoting(s, y, requester)
  {
    assert Decode(x, false) == Decode(y, false);
  }

  /** A title sent with surrounding whitespace is stored stripped: the poll is the same. */
  lemma PaddedTitle()
    ensures CreateVoting(EmptyStore, Body.(title := Some("  Lunch \n")), 1) == Ok(Built)
  {
    assert TrimStart("  Lunch \n") == TrimStart(" Lunch \n") == TrimStart("Lunch \n") == "Lunch \n";
    assert "Lunch \n"[..6] == "Lunch " && "Lunch "[..5] == "Lunch";
    assert TrimEnd("Lunch \n") == TrimEnd("Lunch ") == TrimEnd("Lunch") == "Lunch";
    TrimKeeps("Lunch");
    assert Incoming(Body.(title := Some("  Lunch \n"))).title == Incoming(Body).title;
    assert Incoming(Body.(title := Some("  Lunch \n"))) == Incoming(Body);
    SameIncoming(EmptyStore, Body.(title := Some("  Lunch \n")), Body, 1);
    BuildPoll();
  }

  /** A title holding a NUL character is refused. */
  lemma NulTitle()
    ensures CreateVoting(EmptyStore, Body.(title := Some("Lu\0nch")), 1) == Err(Invalid)
  {
    TrimKeeps("Lu\0nch");
    var d := Incoming(Body.(title := Some("Lu\0nch")));
    assert d.title == Some("Lu\0nch");
    assert "Lu\0nch"[2] == '\0';
    assert !CharOk(d.title, TitleMax);
  }

  /** A title of whitespace only is blank once stripped, and refused. */
  lemma BlankTitle()
    ensures CreateVoting(EmptyStore, Body.(title := Some(" \t ")), 1) == Err(Invalid)
  {
    assert TrimStart(" \t ") == "";
    var d := Incoming(Body.(title := Some(" \t ")));
    assert d.title == Some("");
    assert !CharOk(d.title, TitleMax);
  }

  lemma BuildPoll()
    ensures CreateVoting(EmptyStore, Body, 1) == Ok(Built)
  {
    DecodeBody();
    ConstructBody();
  }

  /** The store after both users answered. */
  const Voted := Built.(votes := map[0 := Vote(1, 0, 0), 1 := Vote(2, 0, 0), 2 := Vote(1, 0, 2)], nextVote := 3)

  lemma BuiltPages()
    ensures PagesOf(Built, 0) == [0]
  {
    assert 0 in Built.pages && Built.pages[0].voting == 0;
    SelectNext(Built.pages, PageVoting, {0}, 0);
  }

  lemma SubmitAnswers()
    ensures SubmitVotes(Built, {1, 2}, 0, Answers) == Ok(Voted)
  {
    BuiltPages();
    AnswersAccepted();
    var rows := NewVotes(Answers);
    assert rows == [Vote(1, 0, 0), Vote(2, 0, 0), Vote(1, 0, 2)];
    AnswersStored(rows);
  }

  /** Every answer is valid and names a question of the poll. */
  lemma AnswersAccepted()
    ensures forall i :: 0 <= i < |Answers| ==> EntryOk(Built, {1, 2}, Answers[i])
    ensures forall i :: 0 <= i < |Answers| ==> QuestionIn(Built, Answers[i].question.value, 0)
  {
  }

  lemma AnswersStored(rows: seq<Vote>)
    requires rows == [Vote(1, 0, 0), Vote(2, 0, 0), Vote(1, 0, 2)]
    ensures Append(Built.votes, 0, rows) == Voted.votes
  {
    var m := Append(Built.votes, 0, rows);
    assert m.Keys == {0, 1, 2};
  }

  lemma VotedQuestions()
    ensures QuestionsOfVoting(Voted, 0) == [0, 1]
  {
    var qs := Voted.questions;
    assert PageSet(Voted, 0) == {0};
    assert qs == AllQuestions;
    assert 0 in qs && qs[0].page == 0 && 1 in qs && qs[1].page == 0;
    SelectNext(qs, QuestionPage, {0}, 0);
    SelectNext(qs, QuestionPage, {0}, 1);
  }

  /** The choice table, key by key. */
  lemma AllChoicesRows()
    ensures AllChoices.Keys == {0, 1, 2, 3}
    ensures AllChoices[0].question == 0 && AllChoices[1].question == 0
    ensures AllChoices[2].question == 1 && AllChoices[3].question == 1
  {
  }

  lemma FoodChoicesListed()
    ensures ChoicesOf(Voted, 0) == [0, 1]
  {
    var cs := Voted.choices;
    assert cs == AllChoices;
    AllChoicesRows();
    SelectNext(cs, ChoiceQuestion, {0}, 0);
    SelectNext(cs, ChoiceQuestion, {0}, 1);
    SelectNext(cs, ChoiceQuestion, {0}, 2);
    SelectNext(cs, ChoiceQuestion, {0}, 3);
  }

  lemma DrinkChoicesListed()
    ensures ChoicesOf(Voted, 1) == [2, 3]
  {
    var cs := Voted.choices;
    assert cs == AllChoices;
    AllChoicesRows();
    SelectNext(cs, ChoiceQuestion, {1}, 0);
    SelectNext(cs, ChoiceQuestion, {1}, 1);
    SelectNext(cs, ChoiceQuestion, {1}, 2);
    SelectNext(cs, ChoiceQuestion, {1}, 3);
  }

  /** The vote table, key by key. */
  lemma VotedRows()
    ensures Voted.votes.Keys == {0, 1, 2}
    ensures Voted.votes[0].choice == 0 && Voted.votes[1].choice == 0 && Voted.votes[2].choice == 2
  {
  }

  lemma PizzaCount()
    ensures CountVotes(Voted, 0) == 2
  {
    VotedRows();
    SelectNext(Voted.votes, VoteChoice, {0}, 0);
    SelectNext(Voted.votes, VoteChoice, {0}, 1);
    SelectNext(Voted.votes, VoteChoice, {0}, 2);
  }

  lemma SaladCount()
    ensures CountVotes(Voted, 1) == 0
  {
    VotedRows();
    SelectNext(Voted.votes, VoteChoice, {1}, 0);
    SelectNext(Voted.votes, VoteChoice, {1}, 1);
    SelectNext(Voted.votes, VoteChoice, {1}, 2);
  }

  lemma TeaCount()
    ensures CountVotes(Voted, 2) == 1
  {
    VotedRows();
    SelectNext(Voted.votes, VoteChoice, {2}, 0);
    SelectNext(Voted.votes, VoteChoice, {2}, 1);
    SelectNext(Voted.votes, VoteChoice, {2}, 2);
  }

  lemma CoffeeCount()
    ensures CountVotes(Voted, 3) == 0
  {
    VotedRows();
    SelectNext(Voted.votes, VoteChoice, {3}, 0);
    SelectNext(Voted.votes, VoteChoice, {3}, 1);
    SelectNext(Voted.votes, VoteChoice, {3}, 2);
  }

  lemma TallyOfVoted()
    ensures Tally(Voted, 0)
         == [QuestionCount(0, "Food?", "checkbox", [ChoiceCount(0, "Pizza", 2), ChoiceCount(1, "Salad", 0)]),
             QuestionCount(1, "Drink?", "radio", [ChoiceCount(2, "Tea", 1), ChoiceCount(3, "Coffee", 0)])]
  {
    VotedQuestions();
    FoodChoicesListed();
    DrinkChoicesListed();
    PizzaCount();
    SaladCount();
    TeaCount();
    CoffeeCount();
    assert CountQuestion(Voted, 0) == QuestionCount(0, "Food?", "checkbox", [ChoiceCount(0, "Pizza", 2), ChoiceCount(1, "Salad", 0)]);
    assert CountQuestion(Voted, 1) == QuestionCount(1, "Drink?", "radio", [ChoiceCount(2, "Tea", 1), ChoiceCount(3, "Coffee", 0)]);
  }

  /** Votes for an unknown voting, or from an account that does not exist, are refused. */
  lemma RefusedSubmits()
    ensures SubmitVotes(Built, {1, 2}, 1, Answers) == Err(NotFound)
    ensures SubmitVotes(Built, {1}, 0, Answers) == Err(Invalid)
  {
    BuiltPages();
    assert !EntryOk(Built, {1}, Answers[1]);
  }

  /** The logic patch's example body: both blobs are strings and are stored as sent. */
  const Pairs := "[[1, 2], [2, 3], [3, 1]]"
  const Hidden := "[[2], [3, 4], [3, 4]]"

  /**
   * The example logic patch stores both strings on the poll.  A null blob,
   * or a submit flag spelled as the string "true", is refused by the save.
   */
  lemma PollLogic()
    ensures PatchLogic(Built, 0, Some(JStr(Pairs)), Some(JStr(Hidden)))
         == Ok(Built.(votings := map[0 := Voting("Lunch", "Where do we eat?", 1, false, Pairs, Hidden)]))
    ensures PatchLogic(Built, 0, Some(JStr(Pairs)), Some(JNull)) == Err(SaveFailed)
    ensures PatchSubmit(Built, 0, Some(JStr("true"))) == Err(SaveFailed)
    ensures PatchSubmit(Built, 0, Some(JStr("True")))
         == Ok(Built.(votings := map[0 := Voting("Lunch", "Where do we eat?", 1, true, "", "")]))
  {
    assert Built.votings[0 := Voting("Lunch", "Where do we eat?", 1, false, Pairs, Hidden)]
        == map[0 := Voting("Lunch", "Where do we eat?", 1, false, Pairs, Hidden)];
    assert Built.votings[0 := Voting("Lunch", "Where do we eat?", 1, true, "", "")]
        == map[0 := Voting("Lunch", "Where do we eat?", 1, true, "", "")];
  }

  /**
   * The poll end to end: only the author may delete it; votes for an
   * unknown voting or from an unknown account are refused; the three
   * answers are accepted, and the tally reports every choice, the tea
   * choice counting the answer given to the food question.
   */
  lemma LunchPoll()
    ensures CreateVoting(EmptyStore, Body, 1) == Ok(Built)
    ensures Built.votings[0].author == 1
    ensures DeleteVoting(Built, 0, 2) == Err(NotAuthor)
    ensures DeleteVoting(Built, 0, 1).Ok?
    ensures SubmitVotes(Built, {1, 2}, 1, Answers) == Err(NotFound)
    ensures SubmitVotes(Built, {1}, 0, Answers) == Err(Invalid)
    ensures SubmitVotes(Built, {1, 2}, 0, Answers) == Ok(Voted)
    ensures Tally(Voted, 0)
         == [QuestionCount(0, "Food?", "checkbox", [ChoiceCount(0, "Pizza", 2), ChoiceCount(1, "Salad", 0)]),
             QuestionCount(1, "Drink?", "radio", [ChoiceCount(2, "Tea", 1), ChoiceCount(3, "Coffee", 0)])]
  {
    BuildPoll();
    SubmitAnswers();
    RefusedSubmits();
    TallyOfVoted();
  }
}
