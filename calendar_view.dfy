/**
 * What the window shows for a store: the task list panel for one date
 * (`show_tasks_for_date`) and the highlight of each calendar day
 * (`update_calendar_format`), as functions of the two dictionaries.
 */
module CalendarView {
  import opened PyStrings
  import opened TaskStore

  /** The two text formats a calendar day can have: the light red
      background of a day with an important task, or the widget's default. */
  datatype Highlight = Default | Important

  /** The prefix put in front of an important task in the list panel: a
      black star (U+2605) and a space. */
  const Marker: string := "\U{2605} "

  /** How one task text is shown, given its date's important texts: the
      text itself, preceded by the marker exactly when it is important. */
  function ItemText(t: Text, important: seq<Text>): (r: string)
    ensures |r| == (if t in important then |Marker| else 0) + |t|
    ensures r[|r| - |t|..] == t
    ensures t in important ==> r[..|Marker|] == Marker
  {
    if t in important then Marker + t else t
  }

  /** The list panel's items for the task texts `ts`, one per text and in
      the same order, each carrying the marker exactly when its text is
      among `important`. */
  function RenderList(ts: seq<Text>, important: seq<Text>): (r: seq<string>)
    ensures |r| == |ts|
    ensures forall i :: 0 <= i < |ts| ==> r[i] == ItemText(ts[i], important)
  {
    if ts == [] then []
    else RenderList(ts[..|ts| - 1], important) + [ItemText(ts[|ts| - 1], important)]
  }

  /** The list panel after `date` is selected: empty for a date without
      tasks, otherwise the date's tasks in order, each starred when its text
      is one of the date's important texts. */
  function Rendered(s: Store, date: DateKey): (r: seq<string>)
    ensures date !in s.tasks ==> r == []
    ensures |r| == |ListAt(s.tasks, date)|
    ensures forall i :: 0 <= i < |r| ==> r[i] == ItemText(ListAt(s.tasks, date)[i], ListAt(s.important, date))
  {
    if date in s.tasks then RenderList(s.tasks[date], ListAt(s.important, date)) else []
  }

  /** The highlight `update_calendar_format` gives `date`: the important one
      exactly for a date with tasks whose important list is non-empty; a
      missing important list counts as empty. */
  function HighlightFor(s: Store, date: DateKey): (h: Highlight)
    ensures h == Important <==> date in s.tasks && ListAt(s.important, date) != []
  {
    if date in s.tasks && date in s.important && s.important[date] != [] then Important
    else Default
  }

  /** The format the calendar widget draws for `date`, given the formats set
      on individual days; a day without one is drawn in the default. */
  function FormatAt(formats: map<DateKey, Highlight>, date: DateKey): Highlight {
    if date in formats then formats[date] else Default
  }

  /** In a consistent store a day is highlighted exactly when its list
      panel shows at least one starred task. */
  lemma ImportantHighlightIffStarred(s: Store, date: DateKey)
    requires Consistent(s)
    ensures var panel := Rendered(s, date);
      HighlightFor(s, date) == Important <==>
        exists i :: 0 <= i < |panel| && panel[i] == Marker + ListAt(s.tasks, date)[i]
  {
    var panel := Rendered(s, date);
    var ts := ListAt(s.tasks, date);
    var important := ListAt(s.important, date);
    if HighlightFor(s, date) == Important {
      var t := s.important[date][0];
      ImportantAreTasks(s, date, t);
      var i :| 0 <= i < |s.tasks[date]| && s.tasks[date][i] == t;
      assert panel[i] == ItemText(ts[i], important) == Marker + ts[i];
    } else {
      forall i | 0 <= i < |panel|
        ensures panel[i] != Marker + ts[i]
      {
        assert ts[i] !in important;
        assert |panel[i]| == |ts[i]| < |Marker + ts[i]|;
      }
    }
  }

  /** What the list panel shows after "Add Task" stores a text: one more
      item, at the end, starred when the box was checked or the text was
      already important on that date; with the box unchecked the earlier
      items are as before, with it checked every earlier copy of the text
      gains the star too. */
  lemma AddThenShow(s: Store, date: DateKey, entry: string, checked: bool)
    requires !AllSpace(entry)
    ensures var t := Strip(entry);
      var before := Rendered(s, date);
      var after := Rendered(Add(s, date, entry, checked), date);
      && |after| == |before| + 1
      && after[|before|]
         == (if checked || (date in s.tasks && t in ListAt(s.important, date)) then Marker + t else t)
      && forall i :: 0 <= i < |before| ==>
           after[i] == if checked && ListAt(s.tasks, date)[i] == t then Marker + t else before[i]
  {
  }

  /** "Add Task" with the box checked highlights the selected day; with it
      unchecked no highlight changes, and no other day's highlight ever
      does. */
  lemma AddHighlight(s: Store, date: DateKey, entry: string, checked: bool, d: DateKey)
    ensures HighlightFor(Add(s, date, entry, checked), d)
      == if d == date && !AllSpace(entry) && checked then Important else HighlightFor(s, d)
  {
  }

  /** "Add Task" leaves the list panel of every other day as it was. */
  lemma AddKeepsOtherLists(s: Store, date: DateKey, entry: string, checked: bool, d: DateKey)
    requires d != date
    ensures Rendered(Add(s, date, entry, checked), d) == Rendered(s, d)
  {
  }

  /** Importance is decided by text, not by entry: a text stored unchecked
      on a day where the same text is already important is shown starred. */
  lemma UncheckedDuplicateShownStarred()
    ensures var s := Store(map["2024-01-01" := ["Pay rent"]], map["2024-01-01" := ["Pay rent"]]);
      Rendered(Add(s, "2024-01-01", " Pay rent ", false), "2024-01-01")
        == [Marker + "Pay rent", Marker + "Pay rent"]
  {
    var s := Store(map["2024-01-01" := ["Pay rent"]], map["2024-01-01" := ["Pay rent"]]);
    StripUnique(" Pay rent ", " ", "Pay rent", " ");
    AddThenShow(s, "2024-01-01", " Pay rent ", false);
  }
}
