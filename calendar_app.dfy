/**
 * The `CalendarApp` window object: the two task dictionaries it updates in
 * place, the items of its task list panel and the per-day formats of its
 * calendar widget, with the three methods that change them.  The entry
 * text, the checkbox, the selected day and today's date are read from
 * widgets or the clock in the application; here they are parameters.
 */
module Calendar {
  import opened PyStrings
  import opened TaskStore
  import opened CalendarView

  class CalendarApp {
    /** `self.tasks`: date key to task texts, in the order they were added. */
    var tasks: map<DateKey, seq<Text>>
    /** `self.important_tasks`: date key to the texts flagged important. */
    var importantTasks: map<DateKey, seq<Text>>
    /** The items of the task list panel, top to bottom. */
    var taskList: seq<string>
    /** The text formats set on individual days of the calendar widget. */
    var dateFormats: map<DateKey, Highlight>

    /** The two dictionaries as a value. */
    function Snapshot(): Store
      reads this`tasks, this`importantTasks
    {
      Store(tasks, importantTasks)
    }

    ghost predicate Valid()
      reads this`tasks, this`importantTasks
    {
      Consistent(Snapshot())
    }

    /** Every day's format is the highlight the dictionaries call for, and
        exactly the dates with tasks have a format of their own. */
    ghost predicate FormatsCurrent()
      reads this`tasks, this`importantTasks, this`dateFormats
    {
      && dateFormats.Keys == tasks.Keys
      && forall d :: FormatAt(dateFormats, d) == HighlightFor(Snapshot(), d)
    }

    /** The list panel shows the tasks of `date`. */
    ghost predicate ListShows(date: DateKey)
      reads this`tasks, this`importantTasks, this`taskList
    {
      taskList == Rendered(Snapshot(), date)
    }

    /** Building the window: both dictionaries start empty, no day has a
        format and the list panel for today is empty. */
    constructor (today: DateKey)
      ensures Valid()
      ensures tasks == map[] && importantTasks == map[]
      ensures dateFormats == map[] && taskList == []
    {
      tasks := map[];
      importantTasks := map[];
      taskList := [];
      dateFormats := map[];
      new;
      UpdateCalendarFormat();
      ShowTasksForDate(today);
      assert dateFormats.Keys == {};
    }

    /** `update_calendar_format`: clear every day's format, then give each
        date with tasks the important highlight when its important list is
        non-empty and the default format otherwise. */
    method UpdateCalendarFormat()
      modifies this`dateFormats
      ensures FormatsCurrent()
    {
      dateFormats := map[];
      var pending := tasks.Keys;
      while pending != {}
        invariant pending <= tasks.Keys
        invariant dateFormats.Keys == tasks.Keys - pending
        invariant forall d :: d in dateFormats ==> dateFormats[d] == HighlightFor(Snapshot(), d)
        decreases pending
      {
        var d :| d in pending;
        var format := Default;
        if d in importantTasks && importantTasks[d] != [] {
          format := Important;
        }
        dateFormats := dateFormats[d := format];
        pending := pending - {d};
      }
    }

    /** `show_tasks_for_date`: refill the list panel with the tasks of
        `date`. */
    method ShowTasksForDate(date: DateKey)
      modifies this`taskList
      ensures ListShows(date)
    {
      taskList := [];
      if date in tasks {
        var ts := tasks[date];
        for i := 0 to |ts|
          invariant taskList == RenderList(ts[..i], ListAt(importantTasks, date))
        {
          var item := ts[i];
          if date in importantTasks && ts[i] in importantTasks[date] {
            item := Marker + ts[i];
          }
          assert ts[..i + 1][..i] == ts[..i];
          taskList := taskList + [item];
        }
        assert ts[..|ts|] == ts;
      }
    }

    /** `add_task`: store the stripped entry under the selected day (and
        among its important texts when the box is checked), then redraw the
        highlights and the selected day's list.  An entry that strips to
        nothing changes nothing. */
    method AddTask(entry: string, checked: bool, date: DateKey)
      modifies this
      ensures Snapshot() == Add(old(Snapshot()), date, entry, checked)
      ensures AllSpace(entry) ==> taskList == old(taskList) && dateFormats == old(dateFormats)
      ensures !AllSpace(entry) ==> ListShows(date) && FormatsCurrent()
      ensures old(Valid()) ==> Valid()
    {
      var text := Strip(entry);
      if text != [] {
        StripIsTaskText(entry);
        AddText(text, checked, date);
      }
    }

    /** The non-empty branch of `add_task`, once the entry is stripped. */
    method AddText(text: Text, checked: bool, date: DateKey)
      requires IsTaskText(text)
      modifies this
      ensures Snapshot() == Append(old(Snapshot()), date, text, checked)
      ensures ListShows(date) && FormatsCurrent()
      ensures old(Valid()) ==> Valid()
    {
      StoreText(text, checked, date);
      UpdateCalendarFormat();
      ShowTasksForDate(date);
    }

    /** The dictionary updates of `add_task` for a non-empty stripped text:
        create both lists for a new date, append to the task list, and
        append to the important list (creating it if need be) when the box
        is checked. */
    method StoreText(text: Text, checked: bool, date: DateKey)
      requires IsTaskText(text)
      modifies this`tasks, this`importantTasks
      ensures Snapshot() == Append(old(Snapshot()), date, text, checked)
      ensures old(Valid()) ==> Valid()
    {
      ghost var oldTasks := tasks;
      ghost var oldImportant := importantTasks;
      if date !in tasks {
        tasks := tasks[date := []];
        importantTasks := importantTasks[date := []];
      }
      tasks := tasks[date := tasks[date] + [text]];
      assert tasks == oldTasks[date := ListAt(oldTasks, date) + [text]];
      if checked {
        if date !in importantTasks {
          importantTasks := importantTasks[date := []];
        }
        importantTasks := importantTasks[date := importantTasks[date] + [text]];
        assert importantTasks
          == oldImportant[date := (if date in oldTasks then ListAt(oldImportant, date) else []) + [text]];
      }
      if Consistent(Store(oldTasks, oldImportant)) {
        AppendPreservesConsistent(Store(oldTasks, oldImportant), date, text, checked);
      }
    }
  }
}
