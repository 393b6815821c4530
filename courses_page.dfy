/** The courses page: course progress and its tabs, starting a course, and the
    test cards with their attempt limit. */
module CoursesPage {

  import opened Common
  import opened Types

  /** The caller's progress record of a course. */
  datatype CourseProgress = CourseProgress(status: CourseProgressStatus)

  datatype Course = Course(id: string, title: string, progress: Option<CourseProgress>)

  /** A test; `maxAttempts` is `None` when the column is null. */
  datatype Test = Test(id: string, title: string, maxAttempts: Option<int>)

  datatype Attempt = Attempt(testId: string, passed: bool)

  /** `progress_percent`: 100 once completed, 50 while in progress, 0 otherwise,
      including with no progress record. */
  function ProgressPercent(p: Option<CourseProgress>): (r: nat)
    ensures r == 100 <==> p.Some? && p.value.status == CourseProgressStatus.Completed
    ensures r == 50 <==> p.Some? && p.value.status == CourseProgressStatus.InProgress
    ensures r == 0 <==> p.None? || p.value.status == CourseProgressStatus.NotStarted
  {
    match p
    case None => 0
    case Some(progress) =>
      match progress.status
      case Completed => 100
      case InProgress => 50
      case NotStarted => 0
  }

  // ---------------------------------------------------------------------------
  // Tabs
  // ---------------------------------------------------------------------------

  predicate HasStatus(c: Course, s: CourseProgressStatus) {
    c.progress.Some? && c.progress.value.status == s
  }

  predicate IsInProgress(c: Course) {
    HasStatus(c, CourseProgressStatus.InProgress)
  }

  predicate IsCompleted(c: Course) {
    HasStatus(c, CourseProgressStatus.Completed)
  }

  function InProgressCourses(courses: seq<Course>): (r: seq<Course>)
    ensures forall i :: 0 <= i < |r| ==> IsInProgress(r[i])
  {
    Filter(courses, IsInProgress)
  }

  function CompletedCourses(courses: seq<Course>): (r: seq<Course>)
    ensures forall i :: 0 <= i < |r| ==> IsCompleted(r[i])
  {
    Filter(courses, IsCompleted)
  }

  predicate NotStarted(c: Course) {
    c.progress.None? || c.progress.value.status == CourseProgressStatus.NotStarted
  }

  function NotStartedCourses(courses: seq<Course>): (r: seq<Course>)
    ensures forall i :: 0 <= i < |r| ==> NotStarted(r[i])
  {
    Filter(courses, NotStarted)
  }

  /** No course is in two tabs, and every course is in one: the three tabs
      together hold the course list exactly. */
  lemma TabsPartition(courses: seq<Course>)
    ensures multiset(InProgressCourses(courses)) + multiset(CompletedCourses(courses)) +
            multiset(NotStartedCourses(courses)) == multiset(courses)
    ensures |InProgressCourses(courses)| + |CompletedCourses(courses)| + |NotStartedCourses(courses)| == |courses|
  {
    forall x: Course
      ensures (IsInProgress(x) || IsCompleted(x) || NotStarted(x)) && !(IsInProgress(x) && IsCompleted(x)) &&
              !(IsInProgress(x) && NotStarted(x)) && !(IsCompleted(x) && NotStarted(x))
    {
    }
    FilterPartition3(courses, IsInProgress, IsCompleted, NotStarted);
  }

  /** A course's tab agrees with its percentage. */
  lemma TabMatchesPercent(c: Course)
    ensures NotStarted(c) <==> ProgressPercent(c.progress) == 0
    ensures HasStatus(c, CourseProgressStatus.Completed) <==> ProgressPercent(c.progress) == 100
  {
  }

  // ---------------------------------------------------------------------------
  // Tests
  // ---------------------------------------------------------------------------

  /** `attempts.filter(a => a.test_id === testId)`: every attempt at that test, each
      as often as it occurs. */
  function AttemptsFor(attempts: seq<Attempt>, testId: string): (r: seq<Attempt>)
    ensures forall i :: 0 <= i < |r| ==> r[i].testId == testId
    ensures forall i :: 0 <= i < |attempts| && attempts[i].testId == testId ==> attempts[i] in r
    ensures forall a :: multiset(r)[a] == if a.testId == testId then multiset(attempts)[a] else 0
  {
    var p := (a: Attempt) => a.testId == testId;
    FilterMembers(attempts, p);
    FilterCounts(attempts, p);
    Filter(attempts, p)
  }

  /** `tests.find(t => t.id === testId)`: the first test with that id. */
  function FindTest(tests: seq<Test>, testId: string): (r: Option<Test>)
    ensures r.Some? ==> r.value in tests && r.value.id == testId
    ensures r.None? <==> forall i :: 0 <= i < |tests| ==> tests[i].id != testId
  {
    if tests == [] then None
    else if tests[0].id == testId then Some(tests[0])
    else
      var r := FindTest(tests[1..], testId);
      assert forall i :: 1 <= i < |tests| ==> tests[i] == tests[1..][i - 1];
      r
  }

  /** A truthy attempt limit: set and non-zero. */
  predicate HasLimit(t: Test) {
    t.maxAttempts.Some? && t.maxAttempts.value != 0
  }

  /** `test?.max_attempts && count >= test.max_attempts`. */
  predicate LimitReached(test: Option<Test>, count: nat) {
    test.Some? && HasLimit(test.value) && count >= test.value.maxAttempts.value
  }

  /** The new attempt row. */
  datatype AttemptRow = AttemptRow(testId: string, userId: string, status: string)

  datatype StartTestResult =
    | NoUser
    | AttemptsExhausted
    | InsertFailed(row: AttemptRow)
    | TestStarted(row: AttemptRow, location: string)

  /** `startTest`: with no user nothing happens; with the limit reached the
      start is refused without an insert; otherwise an "in_progress" attempt is
      inserted and, when that succeeds, the page moves to it (`newId` is the id the
      insert returns). */
  method StartTest(user: Option<string>, tests: seq<Test>, attempts: seq<Attempt>, testId: string,
                   insertFails: bool, newId: string) returns (r: StartTestResult)
    ensures user.None? <==> r == NoUser
    ensures user.Some? && LimitReached(FindTest(tests, testId), |AttemptsFor(attempts, testId)|) <==>
            r == AttemptsExhausted
    ensures r.InsertFailed? || r.TestStarted? ==> r.row == AttemptRow(testId, user.value, "in_progress")
    ensures r.TestStarted? <==>
      user.Some? && !LimitReached(FindTest(tests, testId), |AttemptsFor(attempts, testId)|) && !insertFails
    ensures r.TestStarted? ==> r.location == "/tests/" + testId + "/attempt/" + newId
  {
    if user.None? {
      return NoUser;
    }
    var testAttempts := AttemptsFor(attempts, testId);
    var test := FindTest(tests, testId);
    if test.Some? && HasLimit(test.value) && |testAttempts| >= test.value.maxAttempts.value {
      return AttemptsExhausted;
    }
    var row := AttemptRow(testId, user.value, "in_progress");
    if insertFails {
      return InsertFailed(row);
    }
    r := TestStarted(row, "/tests/" + testId + "/attempt/" + newId);
  }

  /** The stored course progress row written by `startCourse`. */
  datatype ProgressRow = ProgressRow(courseId: string, userId: string, status: CourseProgressStatus)

  datatype StartCourseResult = NoCourseUser | CourseWriteFailed(row: ProgressRow) | CourseStarted(row: ProgressRow, location: string)

  /** `startCourse`: marks the course in progress for the user and moves to it. */
  method StartCourse(user: Option<string>, courseId: string, writeFails: bool) returns (r: StartCourseResult)
    ensures user.None? <==> r == NoCourseUser
    ensures user.Some? ==> r.row == ProgressRow(courseId, user.value, CourseProgressStatus.InProgress)
    ensures r.CourseStarted? <==> user.Some? && !writeFails
    ensures r.CourseStarted? ==> r.location == "/courses/" + courseId
  {
    if user.None? {
      return NoCourseUser;
    }
    var row := ProgressRow(courseId, user.value, CourseProgressStatus.InProgress);
    if writeFails {
      return CourseWriteFailed(row);
    }
    r := CourseStarted(row, "/courses/" + courseId);
  }

  /** Passed: some attempt at the test passed. */
  predicate Passed(testAttempts: seq<Attempt>) {
    exists i :: 0 <= i < |testAttempts| && testAttempts[i].passed
  }

  function LastAttempt(testAttempts: seq<Attempt>): (r: Option<Attempt>)
    ensures r.None? <==> testAttempts == []
    ensures r.Some? ==> r.value == testAttempts[|testAttempts| - 1]
  {
    if testAttempts == [] then None else Some(testAttempts[|testAttempts| - 1])
  }

  /** The badge of a test card. */
  function Badge(testAttempts: seq<Attempt>): (r: string)
    ensures r == "Сдан" <==> Passed(testAttempts)
    ensures r == "Не начат" <==> testAttempts == []
    ensures r == "Не сдан" <==> testAttempts != [] && !Passed(testAttempts)
  {
    if Passed(testAttempts) then "Сдан"
    else if LastAttempt(testAttempts).Some? then "Не сдан"
    else "Не начат"
  }

  /** The start button of a test card. */
  predicate ShowStartButton(test: Test, attempts: seq<Attempt>) {
    var testAttempts := AttemptsFor(attempts, test.id);
    !Passed(testAttempts) && (!HasLimit(test) || |testAttempts| < test.maxAttempts.value)
  }

  function StartButtonLabel(testAttempts: seq<Attempt>): (r: string)
    ensures r == "Пересдать" <==> testAttempts != []
  {
    if LastAttempt(testAttempts).Some? then "Пересдать" else "Начать тест"
  }

  /** For a test that has not been passed, the card offers the button exactly when
      `startTest` would not refuse, provided test ids are unique. */
  lemma ButtonAgreesWithGuard(tests: seq<Test>, k: nat, attempts: seq<Attempt>)
    requires k < |tests|
    requires forall i, j :: 0 <= i < j < |tests| ==> tests[i].id != tests[j].id
    requires !Passed(AttemptsFor(attempts, tests[k].id))
    ensures ShowStartButton(tests[k], attempts) <==>
            !LimitReached(FindTest(tests, tests[k].id), |AttemptsFor(attempts, tests[k].id)|)
  {
    FindFirst(tests, k);
  }

  lemma {:induction false} FindFirst(tests: seq<Test>, k: nat)
    requires k < |tests|
    requires forall i, j :: 0 <= i < j < |tests| ==> tests[i].id != tests[j].id
    ensures FindTest(tests, tests[k].id) == Some(tests[k])
  {
    if k > 0 {
      assert tests[0].id != tests[k].id;
      FindFirst(tests[1..], k - 1);
    }
  }

  /** A passed test offers no start button, whatever attempts remain. */
  lemma PassedNoButton(test: Test, attempts: seq<Attempt>)
    requires Passed(AttemptsFor(attempts, test.id))
    ensures !ShowStartButton(test, attempts)
  {
  }
}
