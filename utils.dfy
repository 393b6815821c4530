/** The formatting and lookup helpers shared by the portal's pages. */
module Utils {

  import opened Common
  import opened Types

  // ---------------------------------------------------------------------------
  // Relative time
  // ---------------------------------------------------------------------------

  /** How a timestamp is shown relative to "now". `OnDate` is shown with the
      locale date format, which is not part of this model. */
  datatype Relative = Missing | JustNow | MinutesAgo(minutes: int) | HoursAgo(hours: int)
                    | DaysAgo(days: int) | OnDate(date: int)

  /** Whole seconds between two millisecond timestamps, rounded down (`Math.floor`). */
  function ElapsedSeconds(date: int, now: int): int {
    (now - date) / 1000
  }

  /** `formatRelativeTime(date)` with the clock reading `now` passed in; times are
      in milliseconds and a missing date is `None`. */
  function FormatRelativeTime(date: Option<int>, now: int): (r: Relative)
    ensures date.None? <==> r == Missing
    ensures r.MinutesAgo? ==> 1 <= r.minutes <= 59 && r.minutes == ElapsedSeconds(date.value, now) / 60
    ensures r.HoursAgo? ==> 1 <= r.hours <= 23 && r.hours == ElapsedSeconds(date.value, now) / 3600
    ensures r.DaysAgo? ==> 1 <= r.days <= 6 && r.days == ElapsedSeconds(date.value, now) / 86400
    ensures r.MinutesAgo? <==> date.Some? && 60 <= ElapsedSeconds(date.value, now) < 3600
    ensures r.HoursAgo? <==> date.Some? && 3600 <= ElapsedSeconds(date.value, now) < 86400
    ensures r.DaysAgo? <==> date.Some? && 86400 <= ElapsedSeconds(date.value, now) < 604800
    ensures r.OnDate? <==> date.Some? && ElapsedSeconds(date.value, now) >= 604800
    ensures r == JustNow <==> date.Some? && ElapsedSeconds(date.value, now) < 60
  {
    match date
    case None => Missing
    case Some(d) =>
      var diff := ElapsedSeconds(d, now);
      if diff < 60 then JustNow
      else if diff < 3600 then MinutesAgo(diff / 60)
      else if diff < 86400 then HoursAgo(diff / 3600)
      else if diff < 604800 then DaysAgo(diff / 86400)
      else OnDate(d)
  }

  /** The order of the buckets from the most to the least recent. */
  function Age(r: Relative): int {
    match r
    case Missing => -1
    case JustNow => 0
    case MinutesAgo(m) => m
    case HoursAgo(h) => 60 + h
    case DaysAgo(d) => 24 * 60 + d
    case OnDate(_) => 7 * 24 * 60
  }

  /** As the clock advances, a timestamp never moves to a more recent bucket. */
  lemma RelativeTimeMonotone(date: int, now1: int, now2: int)
    requires now1 <= now2
    ensures Age(FormatRelativeTime(Some(date), now1)) <= Age(FormatRelativeTime(Some(date), now2))
  {
    var d1, d2 := ElapsedSeconds(date, now1), ElapsedSeconds(date, now2);
    DivMonotone(now1 - date, now2 - date, 1000);
    DivMonotone(d1, d2, 60);
    DivMonotone(d1, d2, 3600);
    DivMonotone(d1, d2, 86400);
  }

  lemma DivMonotone(a: int, b: int, k: int)
    requires a <= b && k > 0
    ensures a / k <= b / k
  {
    var q1, q2 := a / k, b / k;
    assert q1 * k <= a;
    assert b < (q2 + 1) * k;
    MulCancel(q1, q2 + 1, k);
  }

  lemma MulCancel(x: int, y: int, k: int)
    requires k > 0 && x * k < y * k
    ensures x < y
  {
  }

  /** The value of a string of decimal digits, most significant digit first. */
  function DecimalValue(s: string): nat
    requires forall i :: 0 <= i < |s| ==> '0' <= s[i] <= '9'
  {
    if s == [] then 0 else 10 * DecimalValue(s[..|s| - 1]) + (s[|s| - 1] as int - '0' as int)
  }

  /** `s` is the decimal text of `n`: digits only, no leading zero, and of value `n`. */
  predicate Spells(s: string, n: nat) {
    |s| >= 1 && (forall i :: 0 <= i < |s| ==> '0' <= s[i] <= '9') &&
    (s[0] == '0' ==> s == "0") && DecimalValue(s) == n
  }

  /** `${n}` for a natural number. */
  function NatToString(n: nat): (r: string)
    ensures Spells(r, n)
  {
    if n < 10 then [('0' as int + n) as char]
    else
      var prefix := NatToString(n / 10);
      var r := prefix + [('0' as int + n % 10) as char];
      assert r[..|r| - 1] == prefix;
      r
  }

  const MinutesSuffix: string := " мин. назад"
  const HoursSuffix: string := " ч. назад"
  const DaysSuffix: string := " дн. назад"

  /** `s` is the decimal text of `n` followed by `suffix`. */
  predicate CountText(s: string, n: nat, suffix: string) {
    |s| > |suffix| && s[|s| - |suffix|..] == suffix && Spells(s[..|s| - |suffix|], n)
  }

  /** The text shown for a bucket; `None` for a date shown in the locale format. */
  function RelativeText(r: Relative): (t: Option<string>)
    ensures t.None? <==> r.OnDate?
    ensures r == Missing ==> t == Some("-")
    ensures r == JustNow ==> t == Some("только что")
    ensures r.MinutesAgo? && r.minutes >= 0 ==> CountText(t.value, r.minutes, MinutesSuffix)
    ensures r.HoursAgo? && r.hours >= 0 ==> CountText(t.value, r.hours, HoursSuffix)
    ensures r.DaysAgo? && r.days >= 0 ==> CountText(t.value, r.days, DaysSuffix)
  {
    match r
    case Missing => Some("-")
    case JustNow => Some("только что")
    case MinutesAgo(m) => Some(Counted(if m < 0 then 0 else m, MinutesSuffix))
    case HoursAgo(h) => Some(Counted(if h < 0 then 0 else h, HoursSuffix))
    case DaysAgo(d) => Some(Counted(if d < 0 then 0 else d, DaysSuffix))
    case OnDate(_) => None
  }

  /** A count followed by its unit. */
  function Counted(n: nat, suffix: string): (s: string)
    ensures CountText(s, n, suffix)
  {
    var digits := NatToString(n);
    var s := digits + suffix;
    assert s[..|s| - |suffix|] == digits && s[|s| - |suffix|..] == suffix;
    s
  }

  /** What `formatRelativeTime` prints within the week: the elapsed minutes, hours
      or days, rounded down, in decimal, followed by the unit. */
  lemma RelativeTimeText(date: int, now: int)
    ensures var e := ElapsedSeconds(date, now);
      var t := RelativeText(FormatRelativeTime(Some(date), now));
      (e < 60 ==> t == Some("только что")) &&
      (60 <= e < 3600 ==> CountText(t.value, e / 60, MinutesSuffix)) &&
      (3600 <= e < 86400 ==> CountText(t.value, e / 3600, HoursSuffix)) &&
      (86400 <= e < 604800 ==> CountText(t.value, e / 86400, DaysSuffix)) &&
      (e >= 604800 ==> t.None?)
  {
  }

  // ---------------------------------------------------------------------------
  // Label and colour tables
  // ---------------------------------------------------------------------------

  /** `labels[key] || key`: the table's label, or the key itself. */
  function LabelOr(table: map<string, string>, key: string): string {
    if key in table && table[key] != "" then table[key] else key
  }

  const RoleLabels: map<string, string> := map[
    "agent" := "Сотрудник точки",
    "branch_manager" := "Старший точки",
    "ops_manager" := "Операционный руководитель",
    "director" := "Директор",
    "security" := "Безопасность",
    "accountant" := "Бухгалтерия",
    "it_admin" := "IT-администратор",
    "hr" := "HR"]

  const TaskTypeLabels: map<string, string> := map[
    "operations" := "Операционная",
    "it" := "IT",
    "security" := "Безопасность",
    "other" := "Другое"]

  const TaskPriorityLabels: map<string, string> := map[
    "low" := "Низкий",
    "medium" := "Средний",
    "high" := "Высокий"]

  const TaskStatusLabels: map<string, string> := map[
    "new" := "Новая",
    "in_progress" := "В работе",
    "done" := "Выполнена",
    "rejected" := "Отклонена"]

  const ChecklistStatusLabels: map<string, string> := map[
    "not_started" := "Не начат",
    "in_progress" := "В процессе",
    "completed" := "Выполнен",
    "overdue" := "Просрочен"]

  const NewsTypeLabels: map<string, string> := map[
    "critical" := "Критичная",
    "normal" := "Обычная"]

  /** A known role gets its fixed label, which differs from the key; any other
      string comes back unchanged. */
  function RoleLabel(role: string): (r: string)
    ensures role in RoleLabels ==> r == RoleLabels[role] && r != role
    ensures role !in RoleLabels ==> r == role
  {
    LabelOr(RoleLabels, role)
  }

  function TaskTypeLabel(kind: string): (r: string)
    ensures kind in TaskTypeLabels ==> r == TaskTypeLabels[kind] && r != kind
    ensures kind !in TaskTypeLabels ==> r == kind
  {
    LabelOr(TaskTypeLabels, kind)
  }

  function TaskPriorityLabel(priority: string): (r: string)
    ensures priority in TaskPriorityLabels ==> r == TaskPriorityLabels[priority] && r != priority
    ensures priority !in TaskPriorityLabels ==> r == priority
  {
    LabelOr(TaskPriorityLabels, priority)
  }

  function TaskStatusLabel(status: string): (r: string)
    ensures status in TaskStatusLabels ==> r == TaskStatusLabels[status] && r != status
    ensures status !in TaskStatusLabels ==> r == status
  {
    LabelOr(TaskStatusLabels, status)
  }

  function ChecklistStatusLabel(status: string): (r: string)
    ensures status in ChecklistStatusLabels ==> r == ChecklistStatusLabels[status] && r != status
    ensures status !in ChecklistStatusLabels ==> r == status
  {
    LabelOr(ChecklistStatusLabels, status)
  }

  function NewsTypeLabel(kind: string): (r: string)
    ensures kind in NewsTypeLabels ==> r == NewsTypeLabels[kind] && r != kind
    ensures kind !in NewsTypeLabels ==> r == kind
  {
    LabelOr(NewsTypeLabels, kind)
  }

  /** Every stored role has a label, and no two roles share one. */
  lemma RoleLabelInjective(a: Role, b: Role)
    ensures RoleName(a) in RoleLabels
    ensures RoleLabel(RoleName(a)) == RoleLabel(RoleName(b)) ==> a == b
  {
  }

  const DefaultColor: string := "bg-slate-100 text-slate-800"

  const PriorityColors: map<string, string> := map[
    "low" := "bg-slate-100 text-slate-800",
    "medium" := "bg-amber-100 text-amber-800",
    "high" := "bg-red-100 text-red-800"]

  const StatusColors: map<string, string> := map[
    "new" := "bg-blue-100 text-blue-800",
    "in_progress" := "bg-amber-100 text-amber-800",
    "done" := "bg-green-100 text-green-800",
    "rejected" := "bg-red-100 text-red-800",
    "not_started" := "bg-slate-100 text-slate-800",
    "completed" := "bg-green-100 text-green-800",
    "overdue" := "bg-red-100 text-red-800",
    "published" := "bg-green-100 text-green-800",
    "draft" := "bg-slate-100 text-slate-800",
    "archived" := "bg-gray-100 text-gray-800"]

  /** `colors[key] || default`. */
  function ColorOr(table: map<string, string>, key: string): string {
    if key in table && table[key] != "" then table[key] else DefaultColor
  }

  function PriorityColor(priority: string): (r: string)
    ensures priority !in PriorityColors ==> r == DefaultColor
    ensures priority in PriorityColors ==> r == PriorityColors[priority]
  {
    ColorOr(PriorityColors, priority)
  }

  function StatusColor(status: string): (r: string)
    ensures status !in StatusColors ==> r == DefaultColor
    ensures status in StatusColors ==> r == StatusColors[status]
  {
    ColorOr(StatusColors, status)
  }

  /** Every task and checklist status the schema allows has a colour of its own in
      the table; only `not_started` coincides with the fallback colour. */
  lemma StatusColorsCoverSchema(t: TaskStatus, c: ChecklistStatus, a: ArticleStatus)
    ensures TaskStatusName(t) in StatusColors && StatusColor(TaskStatusName(t)) != DefaultColor
    ensures ChecklistStatusName(c) in StatusColors
    ensures StatusColor(ChecklistStatusName(c)) == DefaultColor <==> c == ChecklistStatus.NotStarted
    ensures ArticleStatusName(a) in StatusColors
  {
  }

  // ---------------------------------------------------------------------------
  // Text helpers
  // ---------------------------------------------------------------------------

  /** `s.slice(0, end)`: a negative `end` counts from the end of the string. */
  function SliceTo(s: string, end: int): (r: string)
    ensures StartsWith(s, r)
  {
    if end >= 0 then Take(s, end)
    else if |s| + end >= 0 then s[..|s| + end]
    else ""
  }

  /** `truncateText(text, maxLength)`. */
  function TruncateText(text: string, maxLength: int): (r: string)
    ensures |text| <= maxLength ==> r == text
    ensures 0 <= maxLength < |text| ==> r == text[..maxLength] + "..." && |r| == maxLength + 3
    ensures |text| > maxLength ==> exists k :: 0 <= k <= |text| && r == text[..k] + "..."
  {
    if |text| <= maxLength then text
    else
      var kept := SliceTo(text, maxLength);
      assert text[..|kept|] == kept;
      kept + "..."
  }

  /** Truncating an already truncated text to the same length changes nothing. */
  lemma TruncateIdempotent(text: string, maxLength: nat)
    ensures TruncateText(TruncateText(text, maxLength), maxLength) == TruncateText(text, maxLength)
  {
    if |text| > maxLength {
      var once := TruncateText(text, maxLength);
      assert once == text[..maxLength] + "...";
      assert once[..maxLength] == text[..maxLength];
    }
  }

  /** `n => n[0]` joined with `""`: an empty word contributes nothing (`undefined`
      joins as the empty string). */
  function Initial(word: string): string {
    if word == "" then "" else [word[0]]
  }

  function Initials(words: seq<string>): string {
    if words == [] then "" else Initial(words[0]) + Initials(words[1..])
  }

  /** The characters that begin a word: not a space, and first in the string or
      right after a space. `atStart` says whether the previous character was a space
      (or there was none). */
  function WordStarts(s: string, atStart: bool): string {
    if s == [] then ""
    else (if atStart && s[0] != ' ' then [s[0]] else "") + WordStarts(s[1..], s[0] == ' ')
  }

  /** Mapping the words of `split(' ')` to their first letters picks out exactly
      the characters that begin a word. */
  lemma {:induction false} InitialsOfSplit(s: string, atStart: bool)
    ensures Initials(if atStart then Split(s, ' ') else Split(s, ' ')[1..]) == WordStarts(s, atStart)
    decreases |s|
  {
    if s != [] {
      var rest := Split(s[1..], ' ');
      if s[0] == ' ' {
        InitialsOfSplit(s[1..], true);
        assert Split(s, ' ') == [""] + rest;
        assert ([""] + rest)[1..] == rest;
      } else {
        InitialsOfSplit(s[1..], false);
        var r := Split(s, ' ');
        assert r == [[s[0]] + rest[0]] + rest[1..];
        assert r[1..] == rest[1..];
        if atStart {
          assert Initial(r[0]) == [s[0]];
        }
      }
    }
  }

  /** `generateInitials(name)`: at most two characters, the upper-cased first
      letters of the space-separated words, in order. */
  function GenerateInitials(name: string): (r: string)
    ensures |r| <= 2
    ensures r == Take(Upper(WordStarts(name, true)), 2)
  {
    InitialsOfSplit(name, true);
    Take(Upper(Initials(Split(name, ' '))), 2)
  }

  /** `isOverdue(dueDate, status)` with the clock reading `now` passed in; a missing
      (or empty) due date is `None`, an absent status is `None`. */
  function IsOverdue(dueDate: Option<int>, status: Option<string>, now: int): (r: bool)
    ensures r <==> dueDate.Some? && !(status.Some? && status.value in ClosedStatuses) && dueDate.value < now
  {
    if dueDate.None? then false
    else if status.Some? && status.value != "" && status.value in ClosedStatuses then false
    else dueDate.value < now
  }

  const ClosedStatuses: set<string> := {"done", "completed", "rejected"}

  /** Once overdue, an item stays overdue as the clock advances. */
  lemma OverdueStays(dueDate: Option<int>, status: Option<string>, now1: int, now2: int)
    requires now1 <= now2 && IsOverdue(dueDate, status, now1)
    ensures IsOverdue(dueDate, status, now2)
  {
  }
}
