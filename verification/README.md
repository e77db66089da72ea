# Agilo For Her — task store, password meter, search filter and quick-add

A Dafny model of the small pieces of real logic in the Agilo For Her iOS app:

- **Task store** (`TaskManager`, `task_manager.dfy`): the ordered task list, the
  daily energy ceiling (default 100) and the map from a "yyyy-MM-dd" day key to
  whether the ceiling was set that day. Operations: set the daily energy, ask
  whether today's energy is set, add a task (by title or as a ready value),
  toggle a task's completion, delete a task. Every operation is a pure
  transition between store states. The current day key is passed in explicitly,
  so a day rollover is just a different key. A history of calls (`Run` over
  `Event`s) lets the model state facts about every reachable state.
- **Task record** (`TaskModel`, `task.dfy`): the `Task` fields and their
  defaults, and the colour-name tag mapping with its purple fallback. Colours
  are an enum.
- **Password strength meter** (`PasswordStrength`, `password.dfy`): six
  criteria are counted into a 0–6 score. The score is bucketed into weak, fair,
  strong or very strong. Each level has a label and a number of filled bars.
- **Search tab filter** (`Search`, `search.dfy`): the category pill filter,
  then a case-insensitive substring match on title or subtitle. The tab's own
  result list and category list are included as constants.
- **Quick-add sheet** (`QuickAdd`, `quick_add.dfy`): trimming with
  Foundation's `.whitespaces` set, the submit guard, and the toolbar button
  that opens the sheet.
- Shared helpers: `Wrappers` (optional values), `Seqs` (order-preserving filter, subsequences) and `Text`
  (ASCII character classes, case fold, substring search).

The store is simple:
- `toggleTaskCompletion` with an unknown id is a silent no-op, not an error.
- `setDailyEnergy` accepts any integer.
- The day is identified by a formatted string key.
- `energyCost` is only a stored default of 25 that nothing reads or checks.

## Model

| member | source | states |
|---|---|---|
| TaskModel.NewTask | AgiloForHer/Models/Task.swift:8-16 | a task made from a title keeps that title, is not completed, is tagged "purple" with symbol "checkmark", and costs 25 energy |
| TaskModel.GetTaskColor | AgiloForHer/Models/Task.swift:18-30 | every tag gives one of the eight task colours, and any tag outside the eight names gives purple |
| TaskModel.GetTaskColorIsTaskColor | AgiloForHer/Models/Task.swift:18-30 | the tag mapping is total and only ever yields one of the eight task colours |
| TaskModel.NamedColors | AgiloForHer/Models/Task.swift:19-27 | each of the eight listed names maps to its own colour |
| TaskModel.UnknownNameFallsBack | AgiloForHer/Models/Task.swift:18-30 | any tag outside the eight names, case variants like "Purple" included, gets the same colour as "purple" |
| TaskModel.ColorNameRoundTrip | AgiloForHer/Models/Task.swift:18-30 | writing a task colour as its tag and mapping it back gives the same colour |
| TaskModel.ListedNamesDistinct | AgiloForHer/Models/Task.swift:19-27 | two different listed names never give the same colour |
| TaskModel.NewTaskIsPurple | AgiloForHer/Models/Task.swift:9-20 | a new task is drawn in purple |
| TaskManager.Init | AgiloForHer/ViewModels/TaskManager.swift:9-11 | a new store has no tasks and ceiling 100, records only `true` entries, and no day reads as set |
| TaskManager.IsEnergySetForToday | AgiloForHer/ViewModels/TaskManager.swift:19-21 | a day reads as set only if it has an entry; while only `true` is recorded, it reads as set exactly when it has an entry |
| TaskManager.SetDailyEnergy | AgiloForHer/ViewModels/TaskManager.swift:23-26 | the ceiling becomes the given amount, whatever its value; today reads as set; the tasks and every other day's entry are unchanged; no `false` entry is introduced |
| TaskManager.AddTask | AgiloForHer/ViewModels/TaskManager.swift:33-35 | exactly one element, the given task, is appended at the end, even if its id is already present; the old list stays as the prefix |
| TaskManager.AddTitledTask | AgiloForHer/ViewModels/TaskManager.swift:28-31 | one new task is appended with the given title and id and all the defaults; the old list stays as the prefix |
| TaskManager.FirstIndex | AgiloForHer/ViewModels/TaskManager.swift:38 | the index found holds a task with the id and no earlier task has it; no index means no task has it |
| TaskManager.ToggleTaskCompletion | AgiloForHer/ViewModels/TaskManager.swift:37-41 | only the first task with the id has its completion flag flipped; length, order, every other task, each task's identity and the energy state are unchanged |
| TaskManager.DeleteTask | AgiloForHer/ViewModels/TaskManager.swift:43-45 | the result keeps the order of the input, holds no task with the id, and keeps every other task as many times as before |
| TaskManager.ToggleUnknownIsNoOp | AgiloForHer/ViewModels/TaskManager.swift:37-41 | toggling an id that no task has changes nothing |
| TaskManager.ToggleTwice | AgiloForHer/ViewModels/TaskManager.swift:37-41 | toggling the same task twice restores the original store |
| TaskManager.DeleteUnknownIsNoOp | AgiloForHer/ViewModels/TaskManager.swift:43-45 | deleting an id that no task has changes nothing |
| TaskManager.DeleteIdempotent | AgiloForHer/ViewModels/TaskManager.swift:43-45 | after a delete the id is gone, and deleting it again changes nothing |
| TaskManager.AddThenDelete | AgiloForHer/ViewModels/TaskManager.swift:33-45 | adding a task whose id is not yet in the list and then deleting it gives back the original manager |
| TaskManager.ToggleAndDeleteDiffer | AgiloForHer/ViewModels/TaskManager.swift:33-45 | with the same task appended twice, toggle flips only the first copy while delete removes both |
| TaskManager.RunEnergySet | AgiloForHer/ViewModels/TaskManager.swift:13-26 | after any sequence of calls, a day reads as set exactly when it already did or one of the calls set the energy while that was the day key |
| TaskManager.FreshStoreDayRollover | AgiloForHer/ViewModels/TaskManager.swift:9-26 | from a new store, a day reads as set iff the energy was set on that day; a new day starts unset whatever earlier days recorded |
| TaskManager.RunKeepsOnlyTrue | AgiloForHer/ViewModels/TaskManager.swift:11-25 | no sequence of calls ever records a day as `false`: entries are only written as `true` |
| TaskManager.RunCeilingUnchanged | AgiloForHer/ViewModels/TaskManager.swift:10-45 | calls other than setting the daily energy never change the ceiling |
| TaskManager.RunCeilingIsLastSet | AgiloForHer/ViewModels/TaskManager.swift:23-26 | the ceiling after a sequence of calls is the amount of the last energy setting in it |
| PasswordStrength.Score | AgiloForHer/Views/OnboardingView/SignInView.swift:252-259 | the score is between 0 and 6; it is 6 exactly when all criteria hold, and 0 only when none do |
| PasswordStrength.Level | AgiloForHer/Views/OnboardingView/SignInView.swift:261-270 | the level's rank is half the score rounded down, capped at 3 for scores of 6 or more |
| PasswordStrength.StrengthOf | AgiloForHer/Views/OnboardingView/SignInView.swift:251-271 | very strong exactly when all six criteria hold; the empty password is weak |
| PasswordStrength.LevelBuckets | AgiloForHer/Views/OnboardingView/SignInView.swift:261-270 | scores 0–1 are weak, 2–3 fair, 4–5 strong, and 6 very strong, in both directions |
| PasswordStrength.LevelMonotone | AgiloForHer/Views/OnboardingView/SignInView.swift:261-270 | over non-negative scores, a higher score never gives a lower level |
| PasswordStrength.VeryStrongIff | AgiloForHer/Views/OnboardingView/SignInView.swift:254-270 | very strong iff at least 10 characters with an upper-case letter, a lower-case letter, a digit and a character outside `[A-Za-z0-9]` |
| PasswordStrength.EmptyIsWeak | AgiloForHer/Views/OnboardingView/SignInView.swift:252-263 | the empty password scores 0 and is weak |
| PasswordStrength.ScoreMonotone | AgiloForHer/Views/OnboardingView/SignInView.swift:254-259 | appending characters never lowers the score |
| PasswordStrength.StrengthMonotone | AgiloForHer/Views/OnboardingView/SignInView.swift:251-271 | appending characters never lowers the level |
| PasswordStrength.LabelInjective | AgiloForHer/Views/OnboardingView/SignInView.swift:320-327 | different levels have different labels |
| PasswordStrength.Label | AgiloForHer/Views/OnboardingView/SignInView.swift:320-327 | each level's caption is its entry in the weakest-first list "Weak", "Fair", "Strong", "Very Strong" |
| PasswordStrength.FilledBarsOrder | AgiloForHer/Views/OnboardingView/SignInView.swift:329-336 | between 1 and 4 bars are filled, and a stronger level fills strictly more bars (both directions) |
| PasswordStrength.FilledBars | AgiloForHer/Views/OnboardingView/SignInView.swift:329-336 | a level fills one bar more than its rank, so weak fills 1 and very strong fills 4 |
| PasswordStrength.Indicator | AgiloForHer/Views/OnboardingView/SignInView.swift:89-117 | the meter appears iff the screen is in sign-up mode and the password is non-empty, and then shows that password's level |
| PasswordStrength.DefaultScreenShowsNoMeter | AgiloForHer/Views/OnboardingView/SignInView.swift:6-8 | the screen opens in sign-in mode with a pre-filled password and shows no meter |
| PasswordStrength.IndicatorNeverDrops | AgiloForHer/Views/OnboardingView/SignInView.swift:89-117 | while signing up, typing more characters keeps the meter shown and never lowers its level |
| Search.ContainsIgnoringCase | AgiloForHer/Views/MainView/SearchTabContent.swift:78-79 | true iff the needle is non-empty and, after case folding, occurs at some position of the text |
| Search.ContainsIgnoresNeedleCase | AgiloForHer/Views/MainView/SearchTabContent.swift:78-79 | the case of the search text does not affect the match |
| Text.Contains | AgiloForHer/Views/MainView/SearchTabContent.swift:78-79 | the search finds the needle iff it occurs at some position of the text |
| Search.ByCategory | AgiloForHer/Views/MainView/SearchTabContent.swift:70-72 | the category stage keeps order, returns only results in the category ("All" admits all), and drops none that are |
| Search.ByText | AgiloForHer/Views/MainView/SearchTabContent.swift:77-80 | the text stage keeps order, returns only results whose title or subtitle contains the text, and drops none that do |
| Search.FilteredResults | AgiloForHer/Views/MainView/SearchTabContent.swift:69-82 | the result is an order-preserving subsequence of the input; every returned result passes the category and text tests; every input result passing both is returned |
| Search.FilteredResultsIsOnePass | AgiloForHer/Views/MainView/SearchTabContent.swift:69-82 | the two-stage filter equals one filter by both tests together |
| Search.AllAndEmptyTextIsIdentity | AgiloForHer/Views/MainView/SearchTabContent.swift:70-75 | with "All" and empty text the list comes back unchanged |
| Search.UnusedCategoryIsEmpty | AgiloForHer/Views/MainView/SearchTabContent.swift:70-72 | a category other than "All" that no result carries yields an empty list |
| Search.UnknownCategoryIsEmpty | AgiloForHer/Views/MainView/SearchTabContent.swift:7-72 | over the tab's own results, any category without a pill yields an empty list |
| Search.NotesPillExample | AgiloForHer/Views/MainView/SearchTabContent.swift:10-75 | on the tab's own results, the "Notes" pill with empty text shows the two notes in their listed order |
| QuickAdd.TrimShape | AgiloForHer/Views/MainView/HomeView.swift:331 | the trimmed text is a contiguous piece of the input with only whitespace cut from either end, and neither starts nor ends with whitespace |
| QuickAdd.Trim | AgiloForHer/Views/MainView/HomeView.swift:331-332 | the trimmed text is no longer than the input; it is empty iff the input is all spaces, tabs or other space separators; otherwise it neither starts nor ends with one |
| QuickAdd.TrimIdempotent | AgiloForHer/Views/MainView/HomeView.swift:331 | trimming twice is trimming once |
| QuickAdd.NewlineIsKept | AgiloForHer/Views/MainView/HomeView.swift:331 | a line break is not trimmed |
| QuickAdd.SpacesAndTabsTrimToEmpty | AgiloForHer/Views/MainView/HomeView.swift:331 | spaces and tabs are trimmed away |
| QuickAdd.SubmitQuickAdd | AgiloForHer/Views/MainView/HomeView.swift:330-338 | blank-after-trim text leaves the state unchanged; otherwise the text becomes empty and the sheet closes; focus is untouched and nothing is stored |
| QuickAdd.OpenQuickAdd | AgiloForHer/Views/MainView/HomeView.swift:292-293 | the plus button shows the sheet and keeps the typed text |
| QuickAdd.SubmitIdempotent | AgiloForHer/Views/MainView/HomeView.swift:330-338 | submitting twice has the effect of submitting once |
| QuickAdd.BlankSubmissionKeepsSheetOpen | AgiloForHer/Views/MainView/HomeView.swift:292-338 | after opening the sheet, a blank submission leaves it open with its text |

## Left out

- Clock, day key and identifiers: `Date()`, the `DateFormatter` behind `todayKey`, and `UUID()`. These are parameters: each call carries its day key, and new tasks get their id and creation time from the caller. `createdDate` is an integer clock reading rather than a floating-point `Date`.
- The `@Observable` class and the environment singleton. The store is a value, and each operation returns the next state.
- Sub-tasks, energy budgets, validation errors, persistence and completion gating are not modelled. None of them exists in the modelled code, and `energyCost` is only stored.
- The energy sheet's slider range (25 to 500, step 5) is a property of the caller, not of `setDailyEnergy`, which accepts any integer. The model does the same.
- Theme colours are enum values, not RGB `Color`s. The meter's `strengthColor` and its very-strong checkmark are presentation and are left out.
- PasswordStrength.Score: the length is the number of `char`s. Swift's `count` counts grapheme clusters, and the model does not do Unicode segmentation.
- Search.ContainsIgnoringCase: folds only ASCII letters. The locale-aware folding of `localizedCaseInsensitiveContains` (accents, non-Latin scripts, ligatures) is not modelled.
- QuickAdd.SubmitQuickAdd: the accepted text is only printed by the app (a `print` with a TODO), so the model drops it. Output is I/O.
- The plus button also focuses the text field after a 0.3 s delay. That is a timer, and `OpenQuickAdd` leaves focus unchanged.
- All layout, animation, confetti, sound, haptics, timers and ring geometry are left out. So are the remaining screens: task cards, backlog rows, focus and cycle views.
