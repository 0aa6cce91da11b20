/**
 * The two dictionaries `CalendarApp` keeps, as a value, and what one click
 * of "Add Task" does to them.  A date key is the `yyyy-MM-dd` text of a
 * calendar day; it is treated as an opaque string.
 */
module TaskStore {
  import opened PyStrings

  type DateKey = string
  type Text = string

  /** `tasks` maps a date to its task texts in the order they were added;
      `important` maps a date to the texts that were flagged important. */
  datatype Store = Store(tasks: map<DateKey, seq<Text>>, important: map<DateKey, seq<Text>>)

  /** Both dictionaries as the application starts: empty. */
  const Empty: Store := Store(map[], map[])

  /** The list stored under `d`, or the empty list when `d` is not a key. */
  function ListAt(m: map<DateKey, seq<Text>>, d: DateKey): seq<Text> {
    if d in m then m[d] else []
  }

  /** What "Add Task" can store: a stripped entry text, which is never
      empty and neither starts nor ends with whitespace. */
  predicate IsTaskText(t: Text) {
    t != [] && !IsSpace(t[0]) && !IsSpace(t[|t| - 1])
  }

  /** Every text of a task list could have been stored by "Add Task". */
  predicate AllTaskTexts(ts: seq<Text>) {
    forall t :: t in ts ==> IsTaskText(t)
  }

  /** The important texts of a date are among its tasks, counting
      duplicates. */
  predicate ImportantWithin(important: seq<Text>, tasks: seq<Text>) {
    multiset(important) <= multiset(tasks)
  }

  /** The relation between the two dictionaries that every reachable state
      keeps: the same dates are keys of both, every stored text is a
      stripped non-empty entry, and a date's important texts are among its
      tasks. */
  predicate Consistent(s: Store) {
    && s.tasks.Keys == s.important.Keys
    && forall d :: d in s.tasks ==>
         AllTaskTexts(s.tasks[d]) && ImportantWithin(s.important[d], s.tasks[d])
  }

  /** The "Add Task" button with `entry` in the text box, the checkbox set
      to `checked` and `date` selected in the calendar. */
  function Add(s: Store, date: DateKey, entry: string, checked: bool): (r: Store)
    // an entry that strips to nothing changes neither dictionary
    ensures AllSpace(entry) ==> r == s
    ensures !AllSpace(entry) ==> r == Append(s, date, Strip(entry), checked)
  {
    var text := Strip(entry);
    if text == [] then s else Append(s, date, text, checked)
  }

  /** Storing the already stripped, non-empty `text` under `date`. */
  function Append(s: Store, date: DateKey, text: Text, checked: bool): (r: Store)
    // the text is appended to the date's task list ...
    ensures r.tasks.Keys == s.tasks.Keys + {date}
    ensures r.tasks[date] == ListAt(s.tasks, date) + [text]
    // ... a new date gets an important list as well ...
    ensures r.important.Keys
      == s.important.Keys + (if date !in s.tasks || checked then {date} else {})
    // ... which starts afresh for a new date and gains the text only when
    // the box is checked
    ensures ListAt(r.important, date)
      == (if date in s.tasks then ListAt(s.important, date) else [])
         + (if checked then [text] else [])
    // no other date is touched
    ensures r.tasks - {date} == s.tasks - {date}
    ensures r.important - {date} == s.important - {date}
  {
    if date !in s.tasks then
      Store(s.tasks[date := [text]], s.important[date := if checked then [text] else []])
    else
      Store(s.tasks[date := s.tasks[date] + [text]],
            if checked then s.important[date := ListAt(s.important, date) + [text]]
            else s.important)
  }

  /** Appending the same text to both lists keeps the first among the
      second, and so does appending it to the second only. */
  lemma MultisetAppend(a: seq<Text>, b: seq<Text>, t: Text)
    requires ImportantWithin(a, b)
    ensures ImportantWithin(a + [t], b + [t]) && ImportantWithin(a, b + [t])
  {
  }

  /** A stripped entry that is not empty is a storable task text. */
  lemma StripIsTaskText(entry: string)
    requires !AllSpace(entry)
    ensures IsTaskText(Strip(entry))
  {
  }

  /** Storing a task text keeps the two dictionaries consistent. */
  lemma AppendPreservesConsistent(s: Store, date: DateKey, text: Text, checked: bool)
    requires Consistent(s) && IsTaskText(text)
    ensures Consistent(Append(s, date, text, checked))
  {
    var r := Append(s, date, text, checked);
    AppendKeepsDate(s, date, text, checked);
    forall d | d in r.tasks && d != date
      ensures AllTaskTexts(r.tasks[d]) && ImportantWithin(r.important[d], r.tasks[d])
    {
      assert r.tasks[d] == (r.tasks - {date})[d] == s.tasks[d];
      assert r.important[d] == (r.important - {date})[d] == s.important[d];
    }
  }

  /** The selected date's part of `AppendPreservesConsistent`. */
  lemma AppendKeepsDate(s: Store, date: DateKey, text: Text, checked: bool)
    requires Consistent(s) && IsTaskText(text)
    ensures var r := Append(s, date, text, checked);
      && r.important.Keys == r.tasks.Keys
      && AllTaskTexts(r.tasks[date])
      && ImportantWithin(r.important[date], r.tasks[date])
  {
    var r := Append(s, date, text, checked);
    assert r.important.Keys == s.important.Keys + {date};
    if date in s.tasks {
      var ts := s.tasks[date];
      var imp := s.important[date];
      assert AllTaskTexts(ts) && ImportantWithin(imp, ts);
      assert r.tasks[date] == ts + [text];
      MultisetAppend(imp, ts, text);
      if checked {
        assert r.important[date] == imp + [text];
      } else {
        assert r.important[date] == imp;
      }
    } else {
      assert r.tasks[date] == [text];
      assert r.important[date] == if checked then [text] else [];
    }
  }

  /** "Add Task" keeps the two dictionaries consistent. */
  lemma AddPreservesConsistent(s: Store, date: DateKey, entry: string, checked: bool)
    requires Consistent(s)
    ensures Consistent(Add(s, date, entry, checked))
  {
    if !AllSpace(entry) {
      StripIsTaskText(entry);
      AppendPreservesConsistent(s, date, Strip(entry), checked);
    }
  }

  /** Under the invariant every important text of a date is one of its
      tasks. */
  lemma ImportantAreTasks(s: Store, d: DateKey, t: Text)
    requires Consistent(s)
    requires d in s.important && t in s.important[d]
    ensures d in s.tasks && t in s.tasks[d]
  {
    assert ImportantWithin(s.important[d], s.tasks[d]);
    assert t in multiset(s.important[d]);
  }

  /** One click of "Add Task": the entry text, the checkbox and the
      selected date at that moment. */
  datatype Click = Click(date: DateKey, entry: string, checked: bool)

  /** The dictionaries after the given clicks, from the empty start. */
  function Replay(clicks: seq<Click>): Store {
    if clicks == [] then Empty
    else
      var c := clicks[|clicks| - 1];
      Add(Replay(clicks[..|clicks| - 1]), c.date, c.entry, c.checked)
  }

  /** Every state the application can reach is consistent. */
  lemma {:induction false} ReplayConsistent(clicks: seq<Click>)
    ensures Consistent(Replay(clicks))
  {
    if clicks != [] {
      var c := clicks[|clicks| - 1];
      ReplayConsistent(clicks[..|clicks| - 1]);
      AddPreservesConsistent(Replay(clicks[..|clicks| - 1]), c.date, c.entry, c.checked);
    }
  }
}
