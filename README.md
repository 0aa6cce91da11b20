# Task calendar: the date-to-task bookkeeping

This project models the bookkeeping inside the `CalendarApp` window of a
small PyQt5 desktop calendar (`Scripts/calender.py`). The window keeps
two dictionaries keyed by the `yyyy-MM-dd` text of a day:

- `tasks` maps a day to its task texts, in the order they were added;
- `important_tasks` maps a day to the texts that were flagged important.

The "Add Task" button (`add_task`) strips the text box's contents. An
empty result is ignored. Otherwise it creates both lists for a new day,
appends the text to the day's tasks, and appends it to the day's
important texts when the "Important" box is checked. It then recolours
the calendar (`update_calendar_format`) and refills the list panel for
the selected day (`show_tasks_for_date`). A day gets the light red
"important" background when its important list is non-empty. Each
task in the panel is prefixed with `★ ` when its text is among the
day's important texts.

The Dafny files follow that structure:

- `py_strings.dfy` (module `PyStrings`): Python's `str.strip()` with no
  argument, using the whitespace set of `str.isspace()`.
- `task_store.dfy` (module `TaskStore`): the two dictionaries as a value
  (`Store`), one "Add Task" click as a function (`Add`, which strips and
  then calls `Append`), and the invariant every reachable state keeps
  (`Consistent`). The invariant says: the same days are keys of both
  dictionaries; every stored text is non-empty and neither starts nor ends
  with whitespace; and a day's important texts are a sub-multiset of its
  tasks.
- `calendar_view.dfy` (module `CalendarView`): the list panel (`Rendered`)
  and a day's highlight (`HighlightFor`) as functions of a store, with
  lemmas saying how one click changes them.
- `calendar_app.dfy` (module `Calendar`): the class `CalendarApp`. Its
  fields are the two dictionaries, the list panel's items and the formats
  set on individual days. Its methods update them in place, step by step as
  the Python code does. Each method is proved against the functions above.

The text box, the checkbox, the selected day and today's date are
parameters of the methods.

Three observations about `Scripts/calender.py` shape the model:

- The code has no deletion of tasks, no JSON load/save and no multi-date
  selection mode, so the model has none either.
- A day with tasks but no important task keeps the default format
  (lines 71 and 84): there is no separate colour for ordinary days.
- Importance is decided by text, not by entry (line 128). After a text is
  added unchecked to a day where the same text is already important, the
  new entry is shown starred (`CalendarView.UncheckedDuplicateShownStarred`).
  `CalendarView.AddThenShow` states exactly what the panel shows after an
  add.

## Model

| member | source | states |
|---|---|---|
| `PyStrings.IsSpace` | Scripts/calender.py:134 | the whitespace `str.strip()` removes: space, tab, line feed and carriage return are whitespace, and no ASCII letter or digit is |
| `PyStrings.Strip` | Scripts/calender.py:134 | the stripped entry is empty exactly when every character is whitespace in Python's sense; a non-empty result neither starts nor ends with whitespace |
| `PyStrings.StripSlice` | Scripts/calender.py:134 | the stripped text is the slice of the entry that starts at its first non-whitespace character; only whitespace lies before and after it |
| `PyStrings.StripUnique` | Scripts/calender.py:134 | for any text that does not start or end with whitespace, wrapping it in any whitespace and stripping gives back exactly that text |
| `PyStrings.StripIdempotent` | Scripts/calender.py:134 | stripping an already stripped text changes nothing |
| `TaskStore.Add` | Scripts/calender.py:133-147 | an entry that is all whitespace (or empty) leaves both dictionaries unchanged; any other entry is stored, stripped, as `Append` describes |
| `TaskStore.Append` | Scripts/calender.py:136-147 | the day's task list becomes its old list (or `[]`) plus the text at the end. A new day becomes a key of both dictionaries. The important list is reset to `[]` for a new day and gains the text only when the box is checked. With the box unchecked on a known day, `important_tasks` is unchanged. No other day's entry in either dictionary changes |
| `TaskStore.StripIsTaskText` | Scripts/calender.py:134-135 | a stripped entry that is not empty is a storable task text |
| `TaskStore.AppendPreservesConsistent` | Scripts/calender.py:136-147 | storing a text keeps the invariant: the same days are keys of both dictionaries, stored texts are stripped and non-empty, and important texts are among the day's tasks counting duplicates |
| `TaskStore.AddPreservesConsistent` | Scripts/calender.py:133-147 | every "Add Task" click, blank or not, keeps the invariant |
| `TaskStore.ImportantAreTasks` | Scripts/calender.py:142-147 | under the invariant, every text in `important_tasks[d]` is also in `tasks[d]` |
| `TaskStore.ReplayConsistent` | Scripts/calender.py:133-152 | every state reached from the empty dictionaries of the constructor, by any sequence of "Add Task" clicks, satisfies the invariant |
| `CalendarView.ItemText` | Scripts/calender.py:127-129 | a panel item ends with its task text and is exactly `★ ` longer, starting with `★ `, when the text is one of the day's important texts; otherwise it is the text itself |
| `CalendarView.RenderList` | Scripts/calender.py:126-130 | the panel has one item per task, in the same order; item `i` is `★ ` plus the text when the text is among the important texts, else the text unchanged |
| `CalendarView.Rendered` | Scripts/calender.py:122-130 | the panel is empty for a day that is not a key of `tasks`. Otherwise it has the day's tasks in order, each starred exactly when its text is in the day's important list. A missing important list counts as empty |
| `CalendarView.HighlightFor` | Scripts/calender.py:71-74 | a day gets the important highlight exactly when it is a key of `tasks` and its important list is non-empty; a missing important list counts as empty |
| `CalendarView.ImportantHighlightIffStarred` | Scripts/calender.py:73-74 | in a consistent store, a day has the important highlight exactly when some item `i` of its panel is `★ ` followed by the day's task `i` |
| `CalendarView.AddThenShow` | Scripts/calender.py:142-150 | after a non-blank add, the day's panel has one more item, at the end. That item is starred when the box was checked or the text was already important that day. Earlier items are unchanged, except that a checked add stars every earlier copy of the text |
| `CalendarView.AddHighlight` | Scripts/calender.py:144-149 | a non-blank checked add gives the selected day the important highlight. Any other add leaves that day's highlight as it was. No other day's highlight changes |
| `CalendarView.AddKeepsOtherLists` | Scripts/calender.py:136-147 | adding to one day leaves every other day's panel as it was |
| `CalendarView.UncheckedDuplicateShownStarred` | Scripts/calender.py:128 | adding "Pay rent" unchecked to a day where "Pay rent" is already important shows both entries starred |
| `Calendar.CalendarApp.constructor` | Scripts/calender.py:51-59 | the window starts with both dictionaries empty, no day formatted, an empty panel for today and the invariant established |
| `Calendar.CalendarApp.UpdateCalendarFormat` | Scripts/calender.py:61-84 | after the call, exactly the days that are keys of `tasks` have a format of their own. A day is drawn with the important highlight exactly when it is a key of `tasks` and its important list exists and is non-empty. Every other day is drawn in the default format |
| `Calendar.CalendarApp.ShowTasksForDate` | Scripts/calender.py:122-130 | the loop leaves the panel holding exactly `Rendered` of the current dictionaries for the given day |
| `Calendar.CalendarApp.AddTask` | Scripts/calender.py:133-152 | the dictionaries become `Add` of their old value. A blank entry leaves the panel and the formats untouched. Otherwise the formats and the selected day's panel are redrawn from the new dictionaries. The invariant is preserved |
| `Calendar.CalendarApp.AddText` | Scripts/calender.py:136-150 | for a stripped, non-empty text, the dictionaries become `Append` of their old value, and the calendar and panel are then redrawn from them. The invariant is preserved |
| `Calendar.CalendarApp.StoreText` | Scripts/calender.py:136-147 | the in-place dictionary updates of `add_task`, step by step, give exactly `Append` of the old dictionaries, and keep the invariant |

## Left out

- Qt widget construction, layout, signal wiring and window geometry (`Scripts/calender.py:11-48`): these are UI toolkit calls.
- The tray icon, its menu, double-click show/hide and `closeEvent` hiding the window instead of exiting (`Scripts/calender.py:86-120`, `154-163`): these are UI and OS integration.
- Application start-up and the event loop (`Scripts/calender.py:165-170`).
- The tooltip `"{n} task(s)"` (`Scripts/calender.py:82`): it is set on the whole calendar widget and overwritten on every iteration, so it has no per-day meaning.
- The `current_format.isValid()` branch (`Scripts/calender.py:76-80`): the unconditional set at line 84 overrides whatever it does.
- `QDate` parsing and formatting: day keys are opaque strings. Both calls to `selectedDate()` in `add_task` read the same day, which is the `date` parameter.
- `QColor`/`QBrush`/`QTextCharFormat` values: a day's format is the two-valued `Highlight` (`Important` or `Default`). Clearing all formats with a null `QDate` (line 62) is modelled as emptying `dateFormats`.
- Clearing the text box and unchecking the checkbox at the end of `add_task` (`Scripts/calender.py:151-152`): the entry text and the checkbox are parameters, not fields, so there is no widget state to reset.
- `Calendar.CalendarApp.UpdateCalendarFormat`: the loop visits the days of `tasks` in an arbitrary order, not in the dictionary's insertion order. Each day's format is set independently, so the result is the same.
- `PyStrings.IsSpace`: Python strings may hold lone surrogate code points, which Dafny's `char` cannot represent. The model covers strings of Unicode scalar values only.
- Deletion of tasks, JSON persistence and a multi-date selection mode: `Scripts/calender.py` has none of them.
