# LifeTrack validation, error-message and list logic in Dafny

LifeTrack is a single-user dashboard for study tasks, workouts, expenses and
daily reflections. Nearly all of it is forms bound to a remote store. This
project models the four pieces of pure logic inside it and proves properties
about them:

- **`getSafeErrorMessage`** (`ErrorHandler`). It maps a thrown value and an
  optional context key to a user-facing string. The message is lower-cased,
  an ordered cascade of substring rules is tried, and if none matches the
  context's fallback message is returned.
- **The zod schemas** (`Zod`, `SharedFields`, `TaskSchema`, `ExpenseSchema`,
  `ReflectionSchema`, `WorkoutSchema`, `AuthSchema`). An untyped input value
  (`Zod.Value`, a JSON-like tree) is parsed into a normalised record, or into
  the list of issues found. The schemas cover academic tasks and their update
  schema, expenses, reflections and their update schema, workouts with
  nested exercises, and sign-in credentials.
- **The Academic page's list logic** (`Academic`): `toggleTask`, the subject
  filter and the progress counts.
- **The Finance page's totals** (`Finance`): `todayTotal` and `weekTotal`.

The JavaScript string primitives these rely on are modelled in `JsText`:

- `trim` removes the ECMAScript WhiteSpace and LineTerminator code points.
- `length` counts UTF-16 code units, so a character outside the Basic
  Multilingual Plane counts 2. zod's `.min`/`.max` on strings use it.
- `toLowerCase` lowers ASCII letters only.
- `includes` is `Contains`.

zod's parsing semantics are modelled as zod 3 behaves:

- Issues are collected, not cut short. Every field of an object is parsed,
  and every check of a number or string runs. A value of the wrong type
  stops the checks of that field only.
- `.nullable().optional()` accepts `undefined` as omitted and `null` as null.
- `.default(d)` replaces `undefined` with `d`.
- `.partial()` makes every field optional and drops defaults, so an update
  never injects `pending`, `medium` or an order index of 0.
- Unknown keys are stripped.
- An `.int()` failure is reported with its own code (`NotInteger`).

The bounds are inclusive. For example, "Subject must be less than 100
characters" is raised only from 101 characters on, as `.max(100)` does.

Each schema is modelled in the same shape:

- a predicate `ValidX` over the raw input, stating exactly what is accepted;
- `ParseX`, which succeeds exactly when `ValidX` holds and never fails
  without an issue;
- `XNormalised`, which says what the output is: trimmed text, defaults
  filled in, numbers as given;
- `XRoundTrip`, which says every normal record, submitted again, parses to
  itself;
- `XRevalidation`, which says re-validating validated output is the identity.

## Model

| member | source | states |
|---|---|---|
| JsText.Trim | src/lib/validationSchemas.ts:14 | `sanitizeString` leaves no whitespace at either end and never lengthens the text |
| JsText.TrimRemovesOnlyWhitespace | src/lib/validationSchemas.ts:14 | trimming cuts out an infix of the input; everything cut away before and after it is whitespace |
| JsText.TrimOfTrimmed | src/lib/validationSchemas.ts:14 | text without surrounding whitespace is left unchanged |
| JsText.TrimIdempotent | src/lib/validationSchemas.ts:14 | sanitising twice is sanitising once |
| JsText.TrimOfBlank | src/lib/validationSchemas.ts:14 | whitespace-only text sanitises to the empty string |
| JsText.JsLength | src/lib/validationSchemas.ts:20 | the `length` zod bounds, in UTF-16 code units, lies between the number of characters and twice that |
| JsText.JsLengthBmp | src/lib/validationSchemas.ts:20 | for text without characters beyond the Basic Multilingual Plane, the bounded length is the number of characters |
| JsText.ToLowerIdempotent | src/lib/errorHandler.ts:25 | lower-casing twice is lower-casing once |
| JsText.ToLowerOfToUpper | src/lib/errorHandler.ts:25 | lower-casing an upper-cased text gives the lower-cased original |
| ErrorHandler.ContextKey | src/lib/errorHandler.ts:17 | `context \|\| 'default'`: a missing or empty context selects "default", any other context is used as given |
| ErrorHandler.BaseMessage | src/lib/errorHandler.ts:7-17 | the base message is always one of the six fallback table entries |
| ErrorHandler.GetSafeErrorMessage | src/lib/errorHandler.ts:5-70 | the result is always one of the fifteen fixed literals, never the error's own text; a falsy error gets the context's base message |
| ErrorHandler.MatchRules | src/lib/errorHandler.ts:28-69 | the rule cascade returns either the base message or one of the fixed replies |
| ErrorHandler.CascadeIsFirstMatch | src/lib/errorHandler.ts:28-69 | the cascade of `if`s equals first-match-wins over the ordered list of nine rules, falling back to the base message |
| ErrorHandler.FirstMatchIsLeast | src/lib/errorHandler.ts:28-65 | in any ordered rule list, the first rule whose condition holds decides the reply |
| ErrorHandler.FirstMatchingRuleDecides | src/lib/errorHandler.ts:28-65 | when rule k is the first whose condition holds, its reply is the result, whatever later rules also match |
| ErrorHandler.UnrecognisedGetsBaseMessage | src/lib/errorHandler.ts:67-69 | a message that no rule matches yields exactly the context's base message |
| ErrorHandler.UnknownContextGetsDefault | src/lib/errorHandler.ts:13-17 | a missing, empty or unknown context yields "Something went wrong. Please try again." |
| ErrorHandler.FalsyErrorGetsContextFallback | src/lib/errorHandler.ts:7-21 | a falsy error yields the fallback of each known context, and the default one without a context |
| ErrorHandler.CaseInsensitive | src/lib/errorHandler.ts:24-25 | upper-casing or lower-casing the message, or throwing it as a non-Error value, does not change the result |
| ErrorHandler.SameLowerSameMessage | src/lib/errorHandler.ts:24-25 | two thrown values whose texts agree once lower-cased get the same message |
| ErrorHandler.WeakPasswordRule | src/lib/errorHandler.ts:28-40 | the weak-password reply is given if and only if "password" and "weak" both occur and neither earlier rule matched |
| ErrorHandler.BadEmailRule | src/lib/errorHandler.ts:28-45 | the email-format reply is given if and only if "email" occurs with "invalid" or "format" and none of the three earlier rules matched |
| ErrorHandler.NetworkRule | src/lib/errorHandler.ts:28-49 | the network reply is given if and only if "network" or "fetch" occurs and none of the four earlier rules matched |
| ErrorHandler.InvalidEmailOrPasswordWins | src/lib/errorHandler.ts:28-45 | a message containing "invalid email or password", in any case, also meets the email-format rule, yet the credentials reply wins |
| ErrorHandler.PrototypeContextLeaksNonString | src/lib/errorHandler.ts:17-21 | as written, a context naming an `Object.prototype` member makes a falsy error return that member instead of a string |
| ErrorHandler.AsWrittenAgreesOffPrototype | src/lib/errorHandler.ts:17-69 | away from those context names, the as-written function and the model return the same string |
| Zod.LengthIssues | src/lib/validationSchemas.ts:20 | no length issue is raised exactly when the length lies within the bounds |
| Zod.TrimmedText | src/lib/validationSchemas.ts:18-20 | a trimmed text field accepts a string exactly when its trimmed length is within bounds, and outputs the trimmed text |
| Zod.PlainText | src/lib/validationSchemas.ts:49 | an untrimmed text field accepts a string exactly when its length is within bounds, and outputs it unchanged |
| Zod.BlankTextTooShort | src/lib/validationSchemas.ts:18-20 | a whitespace-only value for a required trimmed field is refused with the field's "required" message |
| Zod.TrimmedTextOfTrimmed | src/lib/validationSchemas.ts:18-20 | already-trimmed text within bounds parses to itself |
| Zod.TrimmedTextStable | src/lib/validationSchemas.ts:18-20 | parsing a trimmed field's output again gives the same outcome |
| Zod.NullableTrimmedStable | src/lib/validationSchemas.ts:24-28 | the same for an optional, nullable trimmed field |
| Zod.NumberIssues | src/lib/validationSchemas.ts:38-40 | no number issue is raised exactly when every check passes |
| Zod.RelocatedBack | src/lib/validationSchemas.ts:90 | moving issues that lie under one place to another and back restores them |
| Zod.LengthIssuesMoved | src/lib/validationSchemas.ts:67 | the length checks raise the same issues at another place, moved there |
| Zod.TrimmedTextMoved | src/lib/validationSchemas.ts:67 | a trimmed text field parsed at another place has the same outcome, its issues moved there |
| Zod.NumberIssuesMoved | src/lib/validationSchemas.ts:68 | the number checks raise the same issues at another place, moved there |
| Zod.NumberMoved | src/lib/validationSchemas.ts:68 | a number field parsed at another place has the same outcome, its issues moved there |
| Zod.ModifiersMoved | src/lib/validationSchemas.ts:68 | `.nullable().optional()` and `.default(d)` pass a moved inner outcome through unchanged otherwise |
| Zod.NotAnObjectMoved | src/lib/validationSchemas.ts:64 | a non-object reports its one type issue at whichever place it is found |
| WorkoutSchema.CountMoved | src/lib/validationSchemas.ts:68-69 | a bounded count of an exercise parsed at another place has the same outcome, its issues moved there |
| Zod.FailedCheckReported | src/lib/validationSchemas.ts:38-40 | every failing number check contributes its issue, so all failures are reported together |
| Zod.Number | src/lib/validationSchemas.ts:38-40 | a number field accepts exactly the numbers that pass all their checks, and outputs them unchanged |
| Zod.PositiveAtMost | src/lib/validationSchemas.ts:38-40 | `.positive().max(hi)` passes exactly on 0 < x <= hi |
| Zod.IntegerPositiveAtMost | src/lib/validationSchemas.ts:68-69 | `.int().positive().max(hi)` passes exactly on whole numbers in 1..hi |
| Zod.IntegerNonNegative | src/lib/validationSchemas.ts:76 | `.int().min(0)` passes exactly on whole numbers of at least 0 |
| Zod.ArrayItems | src/lib/validationSchemas.ts:90 | an array is accepted exactly when every item is, and item i of the output is item i's output |
| Zod.ArrayItemsOf | src/lib/validationSchemas.ts:90 | items that each parse to an output make the array parse to the list of those outputs |
| TaskSchema.SubjectField | src/lib/validationSchemas.ts:18-20 | subject is accepted exactly when it is a string of 1..100 code units after trimming, and output trimmed |
| TaskSchema.TitleField | src/lib/validationSchemas.ts:21-23 | title is accepted exactly when it is a string of 1..200 code units after trimming, and output trimmed |
| SharedFields.DescriptionField | src/lib/validationSchemas.ts:24-28 | the description of a task or an expense may be absent or null, and stays omitted or null; a given one must trim to at most 2000 code units, and is output trimmed |
| TaskSchema.StatusField | src/lib/validationSchemas.ts:29 | status must name one of the three statuses, and the accepted status is the one it names |
| TaskSchema.PriorityField | src/lib/validationSchemas.ts:30 | priority must name one of the three priorities, and the accepted priority is the one it names |
| TaskSchema.DueDateField | src/lib/validationSchemas.ts:31 | due date may be absent, null or any string; absent stays omitted, null stays null, and a string is kept untrimmed |
| TaskSchema.ParseTask | src/lib/validationSchemas.ts:17-32 | a task is accepted exactly when every field meets its constraint, and a refusal always reports an issue |
| TaskSchema.ParseTaskPatch | src/lib/validationSchemas.ts:34 | an update is accepted exactly when every supplied field meets its create constraint |
| TaskSchema.TaskNormalised | src/lib/validationSchemas.ts:17-32 | an accepted task has subject and title trimmed, status defaulting to pending and priority to medium and otherwise the ones named, description trimmed, and due date omitted, null or the string given |
| TaskSchema.TaskPatchNormalised | src/lib/validationSchemas.ts:34 | an accepted update leaves unsupplied fields absent, with no defaults injected; supplied texts are trimmed, a supplied status or priority is the one named, and due date is null or the string given |
| TaskSchema.TaskRoundTrip | src/lib/validationSchemas.ts:14-32 | every normal task, submitted again, is accepted unchanged |
| TaskSchema.TaskRevalidation | src/lib/validationSchemas.ts:14-32 | re-validating a validated task gives the same task |
| TaskSchema.BlankTaskTextRejected | src/lib/validationSchemas.ts:18-23 | a whitespace-only subject or title is refused with "Subject is required" or "Title is required" |
| TaskSchema.TaskIsPatch | src/lib/validationSchemas.ts:34 | every acceptable task is also an acceptable update |
| TaskSchema.FullPatchIsTask | src/lib/validationSchemas.ts:34 | an update that supplies subject and title is accepted exactly when the create schema accepts it |
| ExpenseSchema.AmountField | src/lib/validationSchemas.ts:38-40 | amount is accepted exactly when it is a number with 0 < amount <= 999999999 |
| ExpenseSchema.CategoryField | src/lib/validationSchemas.ts:41-43 | category is accepted exactly when it trims to 1..50 code units, and output trimmed |
| SharedFields.DateField | src/lib/validationSchemas.ts:49 | the date of an expense, reflection or workout is accepted exactly when it is a non-empty string, and is kept as written, untrimmed |
| ExpenseSchema.ParseExpense | src/lib/validationSchemas.ts:37-50 | an expense is accepted exactly when every field meets its constraint, and a refusal always reports an issue |
| ExpenseSchema.ExpenseNormalised | src/lib/validationSchemas.ts:37-50 | an accepted expense has its category and any given description trimmed, a null description kept as null, and its amount and date as given |
| ExpenseSchema.ExpenseRoundTrip | src/lib/validationSchemas.ts:37-50 | every normal expense, submitted again, is accepted unchanged |
| ExpenseSchema.ExpenseRevalidation | src/lib/validationSchemas.ts:37-50 | re-validating a validated expense gives the same expense |
| ExpenseSchema.NonPositiveAmountRejected | src/lib/validationSchemas.ts:38-39 | a zero or negative amount is refused with "Amount must be greater than 0" |
| ExpenseSchema.BlankCategoryRejected | src/lib/validationSchemas.ts:41-43 | a whitespace-only category is refused with "Category is required" |
| ReflectionSchema.ContentField | src/lib/validationSchemas.ts:54-56 | content is accepted exactly when it trims to 1..5000 code units, and output trimmed |
| ReflectionSchema.MoodField | src/lib/validationSchemas.ts:57 | mood may be absent or null, and stays omitted or null; a given one must name one of the five moods, and is output as the mood it names |
| ReflectionSchema.ParseReflection | src/lib/validationSchemas.ts:53-59 | a reflection is accepted exactly when every field meets its constraint |
| ReflectionSchema.ParseReflectionPatch | src/lib/validationSchemas.ts:61 | an update is accepted exactly when every supplied field meets its create constraint |
| ReflectionSchema.ReflectionNormalised | src/lib/validationSchemas.ts:53-59 | an accepted reflection has its content trimmed and its date as given |
| ReflectionSchema.ReflectionPatchNormalised | src/lib/validationSchemas.ts:61 | an accepted update leaves unsupplied fields absent; supplied content is trimmed, the date is as given, and a supplied mood is null or the one it names |
| ReflectionSchema.ReflectionRoundTrip | src/lib/validationSchemas.ts:53-59 | every normal reflection, submitted again, is accepted unchanged |
| ReflectionSchema.ReflectionRevalidation | src/lib/validationSchemas.ts:53-59 | re-validating a validated reflection gives the same reflection |
| ReflectionSchema.BlankContentRejected | src/lib/validationSchemas.ts:54-61 | whitespace-only content is refused by both schemas, with "Content is required" |
| ReflectionSchema.FullReflectionPatchIsReflection | src/lib/validationSchemas.ts:61 | an update that supplies content and date is accepted exactly when the create schema accepts it |
| ReflectionSchema.ReflectionIsPatch | src/lib/validationSchemas.ts:61 | every acceptable reflection is also an acceptable update |
| WorkoutSchema.ExerciseNameField | src/lib/validationSchemas.ts:65-67 | exercise name is accepted exactly when it trims to 1..100 code units, and output trimmed |
| WorkoutSchema.BoundedCount | src/lib/validationSchemas.ts:68-69 | sets, reps and duration may be absent or null; a given one must be a whole number in 1..hi |
| WorkoutSchema.WeightField | src/lib/validationSchemas.ts:70 | weight may be absent or null; a given one must satisfy 0 < weight <= 10000 |
| WorkoutSchema.NotesField | src/lib/validationSchemas.ts:71-75 | notes may be absent or null; given notes must trim to at most 1000 code units, and are output trimmed |
| WorkoutSchema.OrderField | src/lib/validationSchemas.ts:76 | the order index must be a whole number of at least 0, and defaults to 0 |
| WorkoutSchema.ParseExercise | src/lib/validationSchemas.ts:64-77 | an exercise is accepted exactly when every field meets its constraint |
| WorkoutSchema.ExercisePathFree | src/lib/validationSchemas.ts:64-77 | an exercise parsed at another place is accepted or rejected alike; an accepted one gives the same output, and a rejected one the same issues in the same order, each with the old place in its path replaced by the new |
| WorkoutSchema.NameField | src/lib/validationSchemas.ts:80-82 | the workout name is accepted exactly when it trims to 1..100 code units |
| WorkoutSchema.ExercisesField | src/lib/validationSchemas.ts:90 | exercises may be absent; a given list must be an array of valid exercises, parsed item by item |
| WorkoutSchema.ParseWorkout | src/lib/validationSchemas.ts:79-91 | a workout is accepted exactly when every field, and every exercise, meets its constraint |
| WorkoutSchema.ExerciseNormalised | src/lib/validationSchemas.ts:64-77 | an accepted exercise has its name and notes trimmed, counts, weight and order index as given with absent and null kept apart, and an order index of 0 when none was given |
| WorkoutSchema.WorkoutNormalised | src/lib/validationSchemas.ts:79-91 | an accepted workout has its name and notes trimmed, its date and duration as given with absent and null kept apart, and one normal exercise per input item |
| WorkoutSchema.ExerciseRoundTrip | src/lib/validationSchemas.ts:64-77 | every normal exercise, submitted again, is accepted unchanged |
| WorkoutSchema.ExerciseListRoundTrip | src/lib/validationSchemas.ts:90 | a list of normal exercises, submitted again, is accepted unchanged |
| WorkoutSchema.WorkoutRoundTrip | src/lib/validationSchemas.ts:79-91 | every normal workout, submitted again, is accepted unchanged |
| WorkoutSchema.WorkoutRevalidation | src/lib/validationSchemas.ts:79-91 | re-validating a validated workout gives the same workout |
| WorkoutSchema.ExerciseRevalidation | src/lib/validationSchemas.ts:64-77 | re-validating a validated exercise gives the same exercise |
| WorkoutSchema.BlankWorkoutNameRejected | src/lib/validationSchemas.ts:80-82 | a whitespace-only name is refused with "Workout name is required" |
| WorkoutSchema.InvalidExerciseRejectsWorkout | src/lib/validationSchemas.ts:90 | a single invalid exercise makes the whole workout refused |
| AuthSchema.EmailField | src/lib/validationSchemas.ts:95-97 | the email is accepted exactly when the pattern accepts it and it has at most 255 code units; both checks report their issue |
| AuthSchema.PasswordField | src/lib/validationSchemas.ts:98-100 | the password is accepted exactly when it has 6..72 code units, untrimmed |
| AuthSchema.ParseAuth | src/lib/validationSchemas.ts:94-101 | credentials are accepted exactly when both fields are, and are output as given |
| AuthSchema.PasswordLengthDecides | src/lib/validationSchemas.ts:98-100 | with a valid email, a string password is accepted if and only if its length is in 6..72 |
| AuthSchema.PasswordLengthMessages | src/lib/validationSchemas.ts:98-100 | a short password is refused with the "at least 6" message, and a long one with the "less than 72" message |
| AuthSchema.AuthRoundTrip | src/lib/validationSchemas.ts:94-101 | acceptable credentials, submitted again, are accepted unchanged |
| Academic.ToggleTask | src/pages/Academic.tsx:30-34 | the list keeps its length and order, and `completed` flips exactly on tasks with the given id; every other field is unchanged |
| Academic.ToggleTwice | src/pages/Academic.tsx:32 | toggling the same id twice gives the original list |
| Academic.ToggleAbsent | src/pages/Academic.tsx:32 | toggling an id no task has changes nothing |
| Academic.ToggleAppend | src/pages/Academic.tsx:32 | toggling acts task by task: toggling a concatenation toggles both parts |
| Academic.CompletedTasks | src/pages/Academic.tsx:40 | the completed filter keeps exactly the ticked tasks |
| Academic.CompletedToday | src/pages/Academic.tsx:40-41 | the completed count never exceeds the total, which is the list length |
| Academic.CompletedTodayCountsIndices | src/pages/Academic.tsx:40 | the completed count is the number of positions holding a ticked task |
| Academic.ToggleUniqueIncomplete | src/pages/Academic.tsx:30-41 | when exactly one task has the id and it is unticked, toggling raises the completed count by exactly one |
| Academic.WithSubject | src/pages/Academic.tsx:37 | the subject filter keeps exactly the tasks of that subject |
| Academic.FilteredTasks | src/pages/Academic.tsx:36-38 | with no filter, or the falsy empty string, the list is unchanged; otherwise exactly the tasks of the subject are kept |
| Academic.WithSubjectAppend | src/pages/Academic.tsx:37 | filtering keeps the original order: it distributes over concatenation |
| Academic.WithSubjectCounts | src/pages/Academic.tsx:37 | each task of the subject is kept as often as it occurs, and every other task is dropped |
| Academic.WithSubjectOfSubject | src/pages/Academic.tsx:37 | a list whose tasks all have the subject passes the filter unchanged |
| Academic.WithSubjectIdempotent | src/pages/Academic.tsx:36-38 | filtering twice by one subject is filtering once |
| Academic.FilterAfterToggle | src/pages/Academic.tsx:30-38 | toggling then filtering equals filtering then toggling |
| Finance.TodayExpenses | src/pages/Finance.tsx:45-46 | the "Today" filter keeps exactly the expenses labelled "Today" |
| Finance.SumFromIsAmounts | src/pages/Finance.tsx:45-49 | the `reduce` fold from an accumulator adds that accumulator to the plain sum of the amounts |
| Finance.WeekTotalIsSum | src/pages/Finance.tsx:49 | the week's total is the sum of all amounts, and 0 for no expenses |
| Finance.TodayTotalIsSum | src/pages/Finance.tsx:45-47 | today's total is the sum of the amounts of exactly the expenses labelled "Today" |
| Finance.WeekSplits | src/pages/Finance.tsx:45-49 | the week's total is today's total plus the amounts of all other expenses |
| Finance.TodayNotAboveWeek | src/pages/Finance.tsx:45-49 | with no negative amounts, 0 <= today's total <= the week's total |
| Finance.AppendExpense | src/pages/Finance.tsx:45-49 | adding an expense raises the week's total by its amount, and today's total by the same amount only when it is labelled "Today" |

## Left out

- The data hooks (`useAcademicTasks`, `useExpenses`, `useReflections`,
  `useWorkouts`) are left out. They are remote-store calls with cache
  invalidation and toasts, and hold no local logic.
- The sign-in and sign-up flow of the Auth page is left out. It is network
  I/O and navigation; only `authSchema` is modelled.
- AuthSchema.ParseAuth: zod's email pattern is a parameter `isEmail`, not
  spelled out, because it is an opaque library regular expression.
- The progress-bar percentage on the Academic page is left out. It is
  floating-point division and is NaN for an empty list; the counts it
  divides are modelled.
- The charts, the calendar grid, the streak count and the other pages are
  left out. They render static data or depend on the wall clock and date
  libraries.
- Numbers are exact reals. NaN, the infinities and floating-point rounding
  are not modelled, so the totals are exact sums.
- Issues carry the schemas' custom messages. Where a schema gives none, the
  message is `None` and zod's own wording is not modelled.
- JsText.ToLower: only ASCII letters are lowered, not full Unicode case
  mapping. Case insensitivity is therefore proved for ASCII case only.
- Error objects are modelled by their message text only. An `Error` whose
  `message` is not a string, and the exact rendering of `String(error)` for
  objects, are not modelled.
- Strings are sequences of Unicode scalar values. A JavaScript string can
  also hold an unpaired UTF-16 surrogate, which the model cannot represent.
- A key present with the value `undefined` reads the same as a missing key.
  zod 3 keeps such a key in its output object; the model folds both into an
  omitted field.
- The `icon` field of an expense is left out. It is a UI component and takes
  no part in the totals.

## Findings

| source | as written | input that shows it | evidently intended | confidence | as-written member | corrected member |
|---|---|---|---|---|---|---|
| src/lib/errorHandler.ts:17 | `fallbackMessages[context \|\| 'default']` reads through the prototype chain of a plain object | context `"toString"` (or `"constructor"`, `"__proto__"`, ...) with a falsy error returns the inherited method, not a string | only the table's own six entries are looked up, and any other key falls back to the default message | high, not executed | ErrorHandler.PrototypeContextLeaksNonString | ErrorHandler.GetSafeErrorMessage |
