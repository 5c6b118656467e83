/** The string handling around tasks: str.strip of the typed name, the task
    list's item text and the `split(' - ')[0]` that reads a name back from it,
    str.lower of the weekday, and the `split(':')` / int() parse of a time. */
module TaskText {
  import opened Wrappers
  import opened Tasks

  /** The characters Python's str.isspace accepts. */
  predicate IsSpace(c: char)
  {
    || c == ' ' || ('\t' <= c <= '\r') || ('\U{1C}' <= c <= '\U{1F}')
    || c == '\U{85}' || c == '\U{A0}' || c == '\U{1680}' || ('\U{2000}' <= c <= '\U{200A}')
    || c == '\U{2028}' || c == '\U{2029}' || c == '\U{202F}' || c == '\U{205F}' || c == '\U{3000}'
  }

  /** How many whitespace characters `s` starts with. */
  function LeadingSpaces(s: string): (n: nat)
    ensures n <= |s|
    ensures forall i :: 0 <= i < n ==> IsSpace(s[i])
    ensures n < |s| ==> !IsSpace(s[n])
  {
    if s != [] && IsSpace(s[0]) then 1 + LeadingSpaces(s[1..]) else 0
  }

  /** How many whitespace characters `s` ends with. */
  function TrailingSpaces(s: string): (n: nat)
    ensures n <= |s|
    ensures forall i :: |s| - n <= i < |s| ==> IsSpace(s[i])
    ensures n < |s| ==> !IsSpace(s[|s| - 1 - n])
  {
    if s != [] && IsSpace(s[|s| - 1]) then 1 + TrailingSpaces(s[..|s| - 1]) else 0
  }

  /** str.lstrip(): `s` without its leading whitespace. */
  function StripStart(s: string): string
    decreases |s|
  {
    if s != [] && IsSpace(s[0]) then StripStart(s[1..]) else s
  }

  /** str.rstrip(): `s` without its trailing whitespace. */
  function StripEnd(s: string): string
    decreases |s|
  {
    if s != [] && IsSpace(s[|s| - 1]) then StripEnd(s[..|s| - 1]) else s
  }

  /** str.strip(): `s` without its leading and trailing whitespace. */
  function Strip(s: string): string
  {
    StripEnd(StripStart(s))
  }

  /** lstrip drops exactly the leading whitespace. */
  lemma {:induction false} StripStartDrops(s: string)
    ensures StripStart(s) == s[LeadingSpaces(s)..]
    decreases |s|
  {
    if s != [] && IsSpace(s[0]) {
      StripStartDrops(s[1..]);
      assert s[1..][LeadingSpaces(s[1..])..] == s[1 + LeadingSpaces(s[1..])..];
    }
  }

  /** rstrip drops exactly the trailing whitespace. */
  lemma {:induction false} StripEndDrops(s: string)
    ensures StripEnd(s) == s[..|s| - TrailingSpaces(s)]
    decreases |s|
  {
    if s != [] && IsSpace(s[|s| - 1]) {
      StripEndDrops(s[..|s| - 1]);
      var t := s[..|s| - 1];
      assert t[..|t| - TrailingSpaces(t)] == s[..|s| - 1 - TrailingSpaces(t)];
    }
  }

  /** str.strip() returns the contiguous middle of `s` that neither starts
      nor ends with whitespace, and is empty exactly when `s` is all
      whitespace. */
  lemma StripMiddle(s: string)
    ensures var r := Strip(s);
      && (r == [] || (!IsSpace(r[0]) && !IsSpace(r[|r| - 1])))
      && (r == [] <==> forall i :: 0 <= i < |s| ==> IsSpace(s[i]))
      && LeadingSpaces(s) + |r| <= |s| && r == s[LeadingSpaces(s)..][..|r|]
  {
    var a := LeadingSpaces(s);
    var rest := s[a..];
    var b := TrailingSpaces(rest);
    StripStartDrops(s);
    StripEndDrops(rest);
    var r := rest[..|rest| - b];
    assert Strip(s) == r;
    if a < |s| {
      assert rest[0] == s[a] && !IsSpace(s[a]);
      assert b < |rest|;
      assert r[0] == s[a] && r[|r| - 1] == rest[|rest| - 1 - b];
      assert !IsSpace(r[0]) && !IsSpace(r[|r| - 1]);
    } else {
      assert r == [];
    }
  }

  /** " - " starts at position `i` of `s`. */
  predicate SepAt(s: string, i: int)
  {
    0 <= i && i + 3 <= |s| && s[i] == ' ' && s[i + 1] == '-' && s[i + 2] == ' '
  }

  /** `s.split(' - ')[0]`: the text before the first " - ", or all of `s`. */
  function ItemName(s: string): (r: string)
    ensures |r| <= |s| && r == s[..|r|]
    ensures r == s || SepAt(s, |r|)
    ensures forall i :: 0 <= i < |r| ==> !SepAt(s, i)
  {
    if |s| < 3 then s
    else if SepAt(s, 0) then []
    else
      var t := ItemName(s[1..]);
      assert forall i :: 1 <= i <= |t| ==> (SepAt(s, i) <==> SepAt(s[1..], i - 1));
      [s[0]] + t
  }

  /** A name that `split(' - ')[0]` gives back from any text that continues
      it with " - ": it holds no " - " and does not end in " -". */
  predicate SafeName(name: string)
  {
    && (forall i :: 0 <= i < |name| ==> !SepAt(name, i))
    && !(|name| >= 2 && name[|name| - 2] == ' ' && name[|name| - 1] == '-')
  }

  /** The name of an item is read back from any text that starts with the
      name followed by " - ", when the name is safe. */
  lemma ItemNameAt(name: string, s: string)
    requires SafeName(name)
    requires |name| + 3 <= |s| && s[..|name|] == name && SepAt(s, |name|)
    ensures ItemName(s) == name
  {
    var r := ItemName(s);
    forall i | 0 <= i < |name|
      ensures !SepAt(s, i)
    {
      assert s[i] == name[i];
      if i + 3 <= |name| {
        assert !SepAt(name, i);
        assert s[i + 1] == name[i + 1] && s[i + 2] == name[i + 2];
      } else if i + 2 == |name| {
        assert s[i + 1] == name[i + 1];
      }
    }
  }

  /** The name of an item is read back from its text when the name is safe. */
  lemma ItemNameRoundTrip(name: string, rest: string)
    requires SafeName(name)
    ensures ItemName(name + " - " + rest) == name
  {
    var s := name + " - " + rest;
    assert s[..|name|] == name;
    ItemNameAt(name, s);
  }

  /** The frequency as the combo box shows it. */
  function FrequencyText(f: Frequency): string
  {
    match f
    case Once => "Once"
    case Daily => "Daily"
    case Weekly => "Weekly"
  }

  /** A stored day as an f-string prints it; JSON null prints as "None". */
  function DayText(day: Option<string>): string
  {
    match day
    case Some(d) => d
    case None => "None"
  }

  /** The schedule column of a task list item (Windows). */
  function ScheduleText(s: Schedule): (r: string)
  {
    FrequencyText(s.frequency) + " at " + s.time + (if s.frequency == Weekly then " on " + DayText(s.day) else "")
  }

  /** The schedule column tells the frequencies apart, and a Weekly column
      ends with the day. */
  lemma ScheduleTextShowsFrequency(s1: Schedule, s2: Schedule)
    ensures ScheduleText(s1) == ScheduleText(s2) ==> s1.frequency == s2.frequency
    ensures s1.frequency == Weekly ==>
      var c, tail := ScheduleText(s1), " on " + DayText(s1.day);
      |tail| <= |c| && c[|c| - |tail|..] == tail
  {
    if ScheduleText(s1) == ScheduleText(s2) {
      assert ScheduleText(s1)[0] == FrequencyText(s1.frequency)[0];
      assert ScheduleText(s2)[0] == FrequencyText(s2.frequency)[0];
    }
    if s1.frequency == Weekly {
      var head, tail := FrequencyText(Weekly) + " at " + s1.time, " on " + DayText(s1.day);
      assert ScheduleText(s1) == head + tail;
      assert (head + tail)[|head|..] == tail;
    }
  }

  /** A task list item's text on Windows: name, source, destination, schedule. */
  function ItemText(name: string, t: Task): string
  {
    name + " - Source: " + t.source + " - Destination: " + t.destination + " - Schedule: " + ScheduleText(t.schedule)
  }

  /** A task list item's text on macOS: name, source, destination. */
  function MacItemText(name: string, t: Task): string
  {
    name + " - Source: " + t.source + " - Destination: " + t.destination
  }

  /** Selecting a task's list item names that task, on either system, when
      the name is safe. */
  lemma ItemTextNamesTask(name: string, t: Task)
    requires SafeName(name)
    ensures ItemName(ItemText(name, t)) == name
    ensures ItemName(MacItemText(name, t)) == name
  {
    var w, m := ItemText(name, t), MacItemText(name, t);
    assert w[..|name|] == name && SepAt(w, |name|);
    assert m[..|name|] == name && SepAt(m, |name|);
    ItemNameAt(name, w);
    ItemNameAt(name, m);
  }

  /** An unsafe name is read back wrongly: the item of a task named
      "a - b" names the task "a". */
  lemma UnsafeItemNamesOtherTask(t: Task)
    ensures ItemName(ItemText("a - b", t)) == "a"
    ensures ItemName(MacItemText("a - b", t)) == "a"
  {
    assert ItemText("a - b", t)[..4] == "a - ";
    assert MacItemText("a - b", t)[..4] == "a - ";
  }

  /** str.lower() on one ASCII character. */
  function LowerChar(c: char): char
  {
    if 'A' <= c <= 'Z' then (c as int - 'A' as int + 'a' as int) as char else c
  }

  /** str.lower() on the ASCII letters. */
  function Lower(s: string): (r: string)
    ensures |r| == |s|
  {
    seq(|s|, i requires 0 <= i < |s| => LowerChar(s[i]))
  }

  /** The attributes of a schedule job that name a weekday. */
  const WeekdayNames: set<string> := {"monday", "tuesday", "wednesday", "thursday", "friday", "saturday", "sunday"}

  /** The entries of the day combo box. */
  const DayChoices: seq<string> := ["Sunday", "Monday", "Tuesday", "Wednesday", "Thursday", "Friday", "Saturday"]

  /** Every day the combo box offers lowers to a weekday attribute. */
  lemma DayChoicesAreWeekdays()
    ensures forall d :: d in DayChoices ==> Lower(d) in WeekdayNames
  {
    assert Lower("Sunday") == "sunday";
    assert Lower("Monday") == "monday";
    assert Lower("Tuesday") == "tuesday";
    assert Lower("Wednesday") == "wednesday";
    assert Lower("Thursday") == "thursday";
    assert Lower("Friday") == "friday";
    assert Lower("Saturday") == "saturday";
  }

  /** str.split(c): the pieces of `s` between the occurrences of `c`. */
  function Split(s: string, c: char): (r: seq<string>)
    ensures |r| >= 1
    ensures forall k :: 0 <= k < |r| ==> c !in r[k]
  {
    if s == [] then [[]]
    else
      var rest := Split(s[1..], c);
      if s[0] == c then [[]] + rest else [[s[0]] + rest[0]] + rest[1..]
  }

  /** c.join(parts). */
  function JoinWith(parts: seq<string>, c: char): string
    requires |parts| >= 1
  {
    if |parts| == 1 then parts[0] else parts[0] + [c] + JoinWith(parts[1..], c)
  }

  /** Joining the pieces of a split gives the string back. */
  lemma {:induction false} SplitJoin(s: string, c: char)
    ensures JoinWith(Split(s, c), c) == s
  {
    if s != [] {
      var rest := Split(s[1..], c);
      SplitJoin(s[1..], c);
      if s[0] != c {
        if |rest| == 1 {
          assert Split(s, c) == [[s[0]] + rest[0]];
        } else {
          var r := Split(s, c);
          assert r[1..] == rest[1..];
          assert JoinWith(r, c) == [s[0]] + rest[0] + [c] + JoinWith(rest[1..], c);
        }
      }
    }
  }

  /** Splitting a string with no separator gives the string itself. */
  lemma {:induction false} SplitNone(s: string, c: char)
    requires c !in s
    ensures Split(s, c) == [s]
  {
    if s != [] {
      SplitNone(s[1..], c);
      assert [s[0]] + s[1..] == s;
    }
  }

  /** A separator after a separator-free prefix ends the first piece. */
  lemma {:induction false} SplitAfter(a: string, b: string, c: char)
    requires c !in a
    ensures Split(a + [c] + b, c) == [a] + Split(b, c)
  {
    var s := a + [c] + b;
    if a != [] {
      assert s[1..] == a[1..] + [c] + b;
      SplitAfter(a[1..], b, c);
      assert [a[0]] + a[1..] == a;
    } else {
      assert s[1..] == b;
    }
  }

  predicate IsDigit(c: char)
  {
    '0' <= c <= '9'
  }

  function DigitValue(c: char): nat
    requires IsDigit(c)
  {
    c as int - '0' as int
  }

  /** The decimal value of a string of digits. */
  function DigitsValue(ds: string): nat
    requires forall i :: 0 <= i < |ds| ==> IsDigit(ds[i])
    decreases |ds|
  {
    if ds == [] then 0 else 10 * DigitsValue(ds[..|ds| - 1]) + DigitValue(ds[|ds| - 1])
  }

  /** int(s) for ASCII decimal text: surrounding whitespace, an optional
      sign and at least one digit; None where int() raises ValueError. */
  function ParseInt(s: string): Option<int>
  {
    var t := Strip(s);
    var sign := if t != [] && (t[0] == '+' || t[0] == '-') then 1 else 0;
    var ds := t[sign..];
    if ds != [] && forall i :: 0 <= i < |ds| ==> IsDigit(ds[i]) then
      var v: int := DigitsValue(ds);
      Some(if sign == 1 && t[0] == '-' then -v else v)
    else None
  }

  /** `hour, minute = int(parts[0]), int(parts[1])` after `split(':')`,
      with the exception it raises. */
  function ParseTime(time: string): Result<(int, int), Raised>
  {
    var parts := Split(time, ':');
    match ParseInt(parts[0])
    case None => Err(ValueError(parts[0]))
    case Some(hour) =>
      if |parts| < 2 then Err(IndexError)
      else
        match ParseInt(parts[1])
        case None => Err(ValueError(parts[1]))
        case Some(minute) => Ok((hour, minute))
  }

  /** A time with no colon raises: ValueError when the whole text is not a
      number, IndexError (for the missing minute) when it is. */
  lemma ParseTimeNoColon(time: string)
    requires ':' !in time
    ensures ParseTime(time) == if ParseInt(time).Some? then Err(IndexError) else Err(ValueError(time))
  {
    SplitNone(time, ':');
  }

  /** The text QTime.toString("HH:mm") produces. */
  predicate ClockText(t: string)
  {
    |t| == 5 && IsDigit(t[0]) && IsDigit(t[1]) && t[2] == ':' && IsDigit(t[3]) && IsDigit(t[4])
  }

  /** Two digits parse to their value. */
  lemma TwoDigits(ds: string)
    requires |ds| == 2 && IsDigit(ds[0]) && IsDigit(ds[1])
    ensures ParseInt(ds) == Some(10 * DigitValue(ds[0]) + DigitValue(ds[1]))
  {
    assert Strip(ds) == ds;
    assert ds[0..] == ds;
    assert ds[..1][..0] == [];
    assert DigitsValue(ds[..1]) == DigitValue(ds[0]);
  }

  /** A clock text splits into its hour and minute digits. */
  lemma ClockTextSplits(t: string)
    requires ClockText(t)
    ensures Split(t, ':') == [t[..2], t[3..]]
  {
    assert t == t[..2] + [':'] + t[3..];
    SplitAfter(t[..2], t[3..], ':');
    SplitNone(t[3..], ':');
  }

  /** A time split into two two-digit pieces parses. */
  lemma TwoPiecesParse(time: string, hh: string, mm: string)
    requires Split(time, ':') == [hh, mm]
    requires |hh| == 2 && IsDigit(hh[0]) && IsDigit(hh[1])
    requires |mm| == 2 && IsDigit(mm[0]) && IsDigit(mm[1])
    ensures ParseTime(time).Ok?
  {
    TwoDigits(hh);
    TwoDigits(mm);
  }

  /** Every time the time editor produces parses: schedule_task never
      raises on it. */
  lemma ClockTextParses(t: string)
    requires ClockText(t)
    ensures ParseTime(t).Ok?
  {
    var hh, mm := t[..2], t[3..];
    assert hh[0] == t[0] && hh[1] == t[1] && mm[0] == t[3] && mm[1] == t[4];
    ClockTextSplits(t);
    TwoPiecesParse(t, hh, mm);
  }
}
