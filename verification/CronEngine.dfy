/** The five-field UTC cron engine: parsing one field, and searching for the next minute. */
module CronEngine {
  import opened Arithmetic
  import opened Options
  import opened Calendar
  import opened Text

  const WINDOW := 366 * MS_PER_DAY

  datatype Cron = Cron(
    minute: set<int>, hour: set<int>, dayOfMonth: set<int>, month: set<int>, dayOfWeek: set<int>,
    domWildcard: bool, dowWildcard: bool)

  // ---------------------------------------------------------------- fields

  /** `String.split` on one character; always at least one piece. */
  function Split(s: string, sep: char): (pieces: seq<string>)
    ensures |pieces| >= 1
  {
    if s == "" then [""] else
    var rest := Split(s[1..], sep);
    if s[0] == sep then [""] + rest else [[s[0]] + rest[0]] + rest[1..]
  }

  /** `split(/\s+/)`: runs of white space separate the pieces. */
  function SplitBlank(s: string): (pieces: seq<string>)
    ensures |pieces| >= 1
    decreases |s|
  {
    if s == "" then [""]
    else if IsSpace(s[0]) then [""] + SplitBlank(s[Spaces(s)..])
    else
      var rest := SplitBlank(s[1..]);
      [[s[0]] + rest[0]] + rest[1..]
  }

  /** `expression.trim().split(/\s+/)`. */
  function Fields(expression: string): seq<string> {
    SplitBlank(Trimmed(expression))
  }

  predicate IsWord(w: string) {
    w != "" && forall i :: 0 <= i < |w| ==> !IsSpace(w[i])
  }

  /** Words with white space between them. */
  function Spaced(words: seq<string>, gaps: seq<string>): string
    requires |words| == |gaps| + 1
  {
    if gaps == [] then words[0] else words[0] + gaps[0] + Spaced(words[1..], gaps[1..])
  }

  lemma {:induction false} SplitWord(w: string, rest: string)
    requires IsWord(w) && (rest == "" || IsSpace(rest[0]))
    ensures SplitBlank(w + rest) == [w] + SplitBlank(rest)[1..]
    decreases |w|
  {
    hide IsSpace, Spaces;
    var s := w + rest;
    assert s[0] == w[0] && s[1..] == w[1..] + rest;
    assert SplitBlank(rest)[0] == "";
    if |w| == 1 {
      assert s[1..] == rest && w == [w[0]] + "";
    } else {
      SplitWord(w[1..], rest);
      assert w == [w[0]] + w[1..];
    }
  }

  lemma SplitGap(gap: string, rest: string)
    requires gap != "" && AllSpace(gap) && rest != "" && !IsSpace(rest[0])
    ensures SplitBlank(gap + rest) == [""] + SplitBlank(rest)
  {
    hide IsSpace;
    var s := gap + rest;
    assert s[|gap|] == rest[0] && s[|gap|..] == rest;
    assert forall k :: 0 <= k < |gap| ==> s[k] == gap[k];
    assert Spaces(s) == |gap|;
  }

  lemma {:induction false} SplitSpaced(words: seq<string>, gaps: seq<string>)
    requires |words| == |gaps| + 1 && (forall i :: 0 <= i < |words| ==> IsWord(words[i]))
    requires forall i :: 0 <= i < |gaps| ==> gaps[i] != "" && AllSpace(gaps[i])
    ensures SplitBlank(Spaced(words, gaps)) == words
    ensures Spaced(words, gaps) != "" && !IsSpace(Spaced(words, gaps)[0])
    ensures !IsSpace(Spaced(words, gaps)[|Spaced(words, gaps)| - 1])
    decreases |gaps|
  {
    hide IsSpace, SplitBlank;
    if gaps == [] {
      SplitWord(words[0], "");
      assert words[0] + "" == words[0] && words == [words[0]];
      SplitNothing();
    } else {
      var more := Spaced(words[1..], gaps[1..]);
      SplitSpaced(words[1..], gaps[1..]);
      SplitGap(gaps[0], more);
      assert (gaps[0] + more)[0] == gaps[0][0];
      SplitWord(words[0], gaps[0] + more);
      assert words[0] + gaps[0] + more == words[0] + (gaps[0] + more);
      assert ([""] + SplitBlank(more))[1..] == SplitBlank(more) && words == [words[0]] + words[1..];
    }
  }

  lemma SplitNothing()
    ensures SplitBlank("") == [""]
  {
  }

  /** Words written with any white space around and between them are the fields. */
  lemma FieldsAre(before: string, words: seq<string>, gaps: seq<string>, after: string)
    requires |words| == |gaps| + 1 && (forall i :: 0 <= i < |words| ==> IsWord(words[i]))
    requires forall i :: 0 <= i < |gaps| ==> gaps[i] != "" && AllSpace(gaps[i])
    requires AllSpace(before) && AllSpace(after)
    ensures Fields(before + Spaced(words, gaps) + after) == words
  {
    hide IsSpace, SplitBlank, Spaced;
    SplitSpaced(words, gaps);
    TrimmedMiddle(before, Spaced(words, gaps), after);
  }

  /** `Number(text)` when that is an integer; left abstract as a total function. */
  type Numeral = string -> Option<int>

  datatype Range = Range(start: int, end: int, step: int)

  predicate Covers(r: Range, v: int) {
    r.start <= v <= r.end && r.step >= 1 && (v - r.start) % r.step == 0
  }

  /** One comma-separated piece, or nothing where the source throws. */
  function Segment(text: string, min: int, max: int, number: Numeral): (r: Option<Range>)
    requires min <= max
    ensures r.Some? ==> min <= r.value.start <= r.value.end <= max && r.value.step >= 1
  {
    var parts := Split(text, '/');
    if |parts| > 2 then None else
    var step := if |parts| == 1 then Some(1) else number(parts[1]);
    if step.None? || step.value < 1 || step.value > max - min + 1 then None else
    var range := parts[0];
    var ends := Split(range, '-');
    var bounds :=
      if range == "*" then Some((min, max))
      else if |ends| > 2 then None
      else if |ends| == 2 then
        var a, b := number(ends[0]), number(ends[1]);
        if a.Some? && b.Some? then Some((a.value, b.value)) else None
      else
        var a := number(range);
        if a.Some? then Some((a.value, a.value)) else None;
    if bounds.None? then None else
    var (start, end) := bounds.value;
    if start < min || end > max || start > end then None else Some(Range(start, end, step.value))
  }

  function Pieces(input: string): (pieces: seq<string>)
    ensures |pieces| >= 1
  {
    Split(input, ',')
  }

  predicate FieldOk(input: string, min: int, max: int, number: Numeral)
    requires min <= max
  {
    forall i :: 0 <= i < |Pieces(input)| ==> Segment(Pieces(input)[i], min, max, number).Some?
  }

  predicate InPiece(text: string, min: int, max: int, number: Numeral, v: int)
    requires min <= max
  {
    var r := Segment(text, min, max, number);
    r.Some? && Covers(r.value, v)
  }

  predicate InField(input: string, min: int, max: int, number: Numeral, v: int)
    requires min <= max
  {
    exists i :: 0 <= i < |Pieces(input)| && InPiece(Pieces(input)[i], min, max, number, v)
  }

  lemma {:induction false} SplitFirst(a: string, sep: char, rest: string)
    requires sep !in a
    ensures Split(a, sep) == [a] && Split(a + [sep] + rest, sep) == [a] + Split(rest, sep)
    decreases |a|
  {
    var s := a + [sep] + rest;
    if a == [] {
      assert s[1..] == rest;
    } else {
      SplitFirst(a[1..], sep, rest);
      assert a[0] in a && s[0] == a[0] && s[1..] == a[1..] + [sep] + rest;
      assert [a[0]] + a[1..] == a;
    }
  }

  /** A text without the three separators. */
  predicate Bare(text: string) {
    '/' !in text && '-' !in text && ',' !in text
  }

  function Span(start: Option<int>, end: Option<int>, step: Option<int>, min: int, max: int): Option<Range> {
    if start.Some? && end.Some? && step.Some? && min <= start.value <= end.value <= max
       && 1 <= step.value <= max - min + 1
    then Some(Range(start.value, end.value, step.value)) else None
  }

  /** What a piece may look like: a star, a value or a range, each with or without a step; all
      numbers within bounds. */
  lemma SegmentReads(a: string, b: string, s: string, min: int, max: int, number: Numeral)
    requires min <= max && Bare(a) && Bare(b) && Bare(s) && a != "*"
    ensures Segment(a, min, max, number) == Span(number(a), number(a), Some(1), min, max)
    ensures Segment(a + ['/'] + s, min, max, number) == Span(number(a), number(a), number(s), min, max)
    ensures Segment(a + ['-'] + b, min, max, number) == Span(number(a), number(b), Some(1), min, max)
    ensures Segment(a + ['-'] + b + ['/'] + s, min, max, number) == Span(number(a), number(b), number(s), min, max)
    ensures Segment("*" + ['/'] + s, min, max, number) == Span(Some(min), Some(max), number(s), min, max)
    ensures Segment(a + ['/'] + (b + ['/'] + s), min, max, number) == None
    ensures Segment(a + ['-'] + (b + ['-'] + s), min, max, number) == None
  {
    hide Split;
    var range := a + ['-'] + b;
    assert '-' in range && range[|a|] == '-';
    SplitFirst(a, '/', s);
    SplitFirst(s, '/', "");
    SplitFirst("*", '/', s);
    SplitFirst(a, '-', b);
    SplitFirst(b, '-', "");
    SplitFirst(range, '/', s);
    SplitFirst(a, '/', b + ['/'] + s);
    SplitFirst(b, '/', s);
    SplitFirst(a, '-', b + ['-'] + s);
    SplitFirst(b, '-', s);
    var long := a + ['-'] + (b + ['-'] + s);
    assert long[|a|] == '-' && '/' !in long;
    SplitFirst(long, '/', "");
    assert [a] + ([b] + [s]) == [a, b, s];
    assert [a] + [s] == [a, s] && [range] + [s] == [range, s] && ["*"] + [s] == ["*", s] && [a] + [b] == [a, b];
  }

  /** Pieces are separated by commas. */
  lemma PiecesRead(a: string, rest: string)
    requires ',' !in a
    ensures Pieces(a) == [a] && Pieces(a + [','] + rest) == [a] + Pieces(rest)
  {
    SplitFirst(a, ',', rest);
  }

  /** A field parses when each piece does; it then holds the values its pieces cover, of
      which there is always one: the source's "field is empty" error cannot happen. */
  method CronField(input: string, min: int, max: int, number: Numeral) returns (values: Option<set<int>>)
    requires min <= max
    ensures values.Some? <==> FieldOk(input, min, max, number)
    ensures values.Some? ==> forall v :: v in values.value <==> InField(input, min, max, number, v)
    ensures values.Some? ==> values.value != {} && forall v :: v in values.value ==> min <= v <= max
  {
    hide Segment;
    var pieces := Pieces(input);
    var result: set<int> := {};
    for i := 0 to |pieces|
      invariant forall k :: 0 <= k < i ==> Segment(pieces[k], min, max, number).Some?
      invariant forall v :: v in result <==> exists k :: 0 <= k < i && InPiece(pieces[k], min, max, number, v)
      invariant i > 0 ==> result != {}
    {
      var r := Segment(pieces[i], min, max, number);
      if r.None? {
        return None;
      }
      var before := result;
      result := AddRange(before, r.value);
      assert Covers(r.value, r.value.start);
    }
    values := Some(result);
  }

  method AddRange(before: set<int>, r: Range) returns (result: set<int>)
    requires r.start <= r.end && r.step >= 1
    ensures forall v :: v in result <==> v in before || Covers(r, v)
  {
    result := before;
    var value := r.start;
    ghost var n := 0;
    while value <= r.end
      invariant n >= 0 && value == r.start + n * r.step
      invariant forall v :: v in result <==> v in before || (Covers(r, v) && v < value)
      decreases r.end - value
    {
      NextCovered(r, value, n);
      result := result + {value};
      value := value + r.step;
      n := n + 1;
    }
  }

  /** Between two values of the loop nothing is covered. */
  lemma NextCovered(r: Range, value: int, n: nat)
    requires r.step >= 1 && value == r.start + n * r.step && value <= r.end
    ensures Covers(r, value) && value + r.step == r.start + (n + 1) * r.step
    ensures forall v :: value < v < value + r.step ==> !Covers(r, v)
  {
    Division(n * r.step, r.step, n, 0);
    forall v | value < v < value + r.step ensures !Covers(r, v) {
      Division(v - r.start, r.step, n, v - value);
    }
  }

  const LOWEST := [0, 0, 1, 1, 0]
  const HIGHEST := [59, 23, 31, 12, 7]

  predicate Parses(fields: seq<string>, number: Numeral) {
    |fields| == 5 && forall i :: 0 <= i < 5 ==> FieldOk(fields[i], LOWEST[i], HIGHEST[i], number)
  }

  /** The value sets and the two wildcard flags mean what the five fields say; day-of-week 7
      is Sunday. */
  ghost predicate Means(c: Cron, fields: seq<string>, number: Numeral)
    requires |fields| == 5
  {
    && c.domWildcard == (fields[2] == "*") && c.dowWildcard == (fields[4] == "*")
    && (forall v :: v in c.minute <==> InField(fields[0], 0, 59, number, v))
    && (forall v :: v in c.hour <==> InField(fields[1], 0, 23, number, v))
    && (forall v :: v in c.dayOfMonth <==> InField(fields[2], 1, 31, number, v))
    && (forall v :: v in c.month <==> InField(fields[3], 1, 12, number, v))
    && (forall v :: v in c.dayOfWeek <==> 0 <= v <= 6 && (InField(fields[4], 0, 7, number, v)
                                                          || (v == 0 && InField(fields[4], 0, 7, number, 7))))
  }

  method ParseCron(expression: string, number: Numeral) returns (cron: Option<Cron>)
    ensures cron.Some? <==> Parses(Fields(expression), number)
    ensures cron.Some? ==> Sound(cron.value) && Means(cron.value, Fields(expression), number)
  {
    hide FieldOk, InField, Fields;
    var fields := Fields(expression);
    if |fields| != 5 {
      return None;
    }
    var dow := CronField(fields[4], 0, 7, number);
    if dow.None? { return None; }
    var days := dow.value;
    if 7 in days {
      days := days - {7} + {0};
    }
    var minute := CronField(fields[0], 0, 59, number);
    if minute.None? { return None; }
    var hour := CronField(fields[1], 0, 23, number);
    if hour.None? { return None; }
    var dom := CronField(fields[2], 1, 31, number);
    if dom.None? { return None; }
    var month := CronField(fields[3], 1, 12, number);
    if month.None? { return None; }
    assert days != {} by { DaysLeft(dow.value); }
    cron := Some(Cron(minute.value, hour.value, dom.value, month.value, days, fields[2] == "*", fields[4] == "*"));
  }

  lemma DaysLeft(days: set<int>)
    requires days != {}
    ensures (if 7 in days then days - {7} + {0} else days) != {}
  {
    if 7 in days { assert 0 in days - {7} + {0}; }
  }

  lemma StarSplits(sep: char)
    requires sep != '*'
    ensures Split("*", sep) == ["*"]
  {
    var s := "*";
    assert s[1..] == "";
    assert Split(s[1..], sep) == [""];
    assert [s[0]] + "" == s;
    assert [s] + [] == [s];
  }

  /** A star covers its whole range. */
  lemma StarCovers(min: int, max: int, number: Numeral, v: int)
    requires min <= max
    ensures InField("*", min, max, number, v) <==> min <= v <= max
  {
    StarSplits(',');
    StarSplits('/');
    assert Pieces("*")[0] == "*";
    assert Segment("*", min, max, number) == Some(Range(min, max, 1));
    assert InPiece("*", min, max, number, v) <==> Covers(Range(min, max, 1), v);
  }

  /** In the day-of-week field 7 is another name for 0. */
  lemma SundayTwice(c: Cron, fields: seq<string>, number: Numeral)
    requires |fields| == 5 && number(['0']) == Some(0) && number(['7']) == Some(7)
    ensures Means(c, fields[4 := ['7']], number) <==> Means(c, fields[4 := ['0']], number)
    ensures Means(c, fields[4 := ['7']], number) ==> c.dayOfWeek == {0} && !c.dowWildcard
  {
    hide InField;
    NumeralField(['0'], 0, 0, 7, number);
    NumeralField(['7'], 7, 0, 7, number);
    assert ['7'] != "*" && ['0'] != "*";
    if Means(c, fields[4 := ['7']], number) {
      assert forall v :: v in c.dayOfWeek <==> v == 0;
    }
  }

  /** What a parsed expression always satisfies. */
  ghost predicate Sound(c: Cron) {
    && c.minute != {} && c.hour != {} && c.dayOfMonth != {} && c.month != {} && c.dayOfWeek != {}
    && (forall v :: v in c.minute ==> 0 <= v <= 59)
    && (forall v :: v in c.hour ==> 0 <= v <= 23)
    && (forall v :: v in c.dayOfMonth ==> 1 <= v <= 31)
    && (forall v :: v in c.month ==> 1 <= v <= 12)
    && (forall v :: v in c.dayOfWeek ==> 0 <= v <= 6)
  }

  // ---------------------------------------------------------------- search

  predicate Matches(c: Cron, t: int) {
    var date := CivilOf(Day(t));
    var dayOfMonth, dayOfWeek := date.date in c.dayOfMonth, WeekDay(t) in c.dayOfWeek;
    var dayMatches :=
      if c.domWildcard then dayOfWeek else if c.dowWildcard then dayOfMonth else dayOfMonth || dayOfWeek;
    MinuteOf(t) in c.minute && HourOf(t) in c.hour && date.month in c.month && dayMatches
  }

  /** The first whole minute strictly after a time. */
  function FirstMinute(after: int): int {
    after / MS_PER_MINUTE * MS_PER_MINUTE + MS_PER_MINUTE
  }

  /** The first match among the minutes from `candidate` to `limit`. */
  function Search(c: Cron, candidate: int, limit: int): Option<int>
    decreases limit - candidate
  {
    if candidate > limit then None
    else if Matches(c, candidate) then Some(candidate)
    else Search(c, candidate + MS_PER_MINUTE, limit)
  }

  function NextCron(c: Cron, after: int): Option<int> {
    Search(c, FirstMinute(after), FirstMinute(after) + WINDOW)
  }

  method FindNext(c: Cron, after: int) returns (next: Option<int>)
    ensures next == NextCron(c, after)
  {
    hide Matches;
    var candidate := FirstMinute(after);
    var limit := candidate + WINDOW;
    while candidate <= limit
      invariant NextCron(c, after) == Search(c, candidate, limit)
      decreases limit - candidate
    {
      if Matches(c, candidate) {
        return Some(candidate);
      }
      candidate := candidate + MS_PER_MINUTE;
    }
    next := None;
  }

  predicate WholeMinute(t: int) {
    t % MS_PER_MINUTE == 0
  }

  lemma {:induction false} SearchLeast(c: Cron, candidate: int, limit: int)
    requires WholeMinute(candidate) && WholeMinute(limit)
    ensures var r := Search(c, candidate, limit);
            && (r.Some? ==> WholeMinute(r.value) && candidate <= r.value <= limit && Matches(c, r.value))
            && forall t :: WholeMinute(t) && candidate <= t <= limit && (r.Some? ==> t < r.value) ==> !Matches(c, t)
    decreases limit - candidate
  {
    hide Matches;
    if candidate <= limit && !Matches(c, candidate) {
      SearchLeast(c, candidate + MS_PER_MINUTE, limit);
    }
  }

  /** The answer is the least matching whole minute strictly after `after`; there is none
      exactly when nothing in the window of 366 days matches. */
  lemma NextIsLeast(c: Cron, after: int)
    ensures var r, limit := NextCron(c, after), FirstMinute(after) + WINDOW;
            && (r.Some? ==> WholeMinute(r.value) && after < r.value <= limit && Matches(c, r.value))
            && (r.Some? ==> forall t :: WholeMinute(t) && after < t < r.value ==> !Matches(c, t))
            && (r.None? <==> forall t :: WholeMinute(t) && after < t <= limit ==> !Matches(c, t))
  {
    hide Matches;
    var from := FirstMinute(after);
    assert WholeMinute(from) && WholeMinute(from + WINDOW);
    SearchLeast(c, from, from + WINDOW);
    assert forall t :: WholeMinute(t) && after < t ==> from <= t;
    assert after < from;
  }

  /** A minute matches when minute, hour and month are listed and the day is: by date or by
      weekday if both are restricted, else by the restricted one. */
  lemma MatchesDay(c: Cron, day: int, hour: int, minute: int)
    requires 0 <= hour <= 23 && 0 <= minute <= 59
    ensures var date, weekday := CivilOf(day), (day + 4) % 7;
            Matches(c, At(day, hour, minute)) <==>
            && minute in c.minute && hour in c.hour && date.month in c.month
            && (if !c.domWildcard && !c.dowWildcard then date.date in c.dayOfMonth || weekday in c.dayOfWeek
                else (c.domWildcard || date.date in c.dayOfMonth) && (!c.domWildcard || weekday in c.dayOfWeek))
  {
    hide CivilOf, At;
    AtParts(day, hour, minute);
  }

  // ---------------------------------------------------------------- when an answer exists

  function At(day: int, hour: int, minute: int): int {
    day * MS_PER_DAY + hour * MS_PER_HOUR + minute * MS_PER_MINUTE
  }

  lemma AtDay(day: int, hour: int, minute: int)
    requires 0 <= hour <= 23 && 0 <= minute <= 59
    ensures Day(At(day, hour, minute)) == day
  {
  }

  lemma AtHour(day: int, hour: int, minute: int)
    requires 0 <= hour <= 23 && 0 <= minute <= 59
    ensures HourOf(At(day, hour, minute)) == hour
  {
    assert At(day, hour, minute) == (24 * day + hour) * MS_PER_HOUR + minute * MS_PER_MINUTE;
  }

  lemma AtMinute(day: int, hour: int, minute: int)
    requires 0 <= hour <= 23 && 0 <= minute <= 59
    ensures MinuteOf(At(day, hour, minute)) == minute && WholeMinute(At(day, hour, minute))
  {
    assert At(day, hour, minute) == (60 * (24 * day + hour) + minute) * MS_PER_MINUTE;
  }

  lemma AtParts(day: int, hour: int, minute: int)
    requires 0 <= hour <= 23 && 0 <= minute <= 59
    ensures var t := At(day, hour, minute);
            Day(t) == day && HourOf(t) == hour && MinuteOf(t) == minute && WholeMinute(t)
  {
    hide At, Day, HourOf, MinuteOf, WholeMinute;
    AtDay(day, hour, minute);
    AtHour(day, hour, minute);
    AtMinute(day, hour, minute);
  }

  /** With both star fields the day test is the weekday test, and every month is in. */
  lemma WeekdayDecides(c: Cron, day: int, hour: int, minute: int)
    requires Sound(c) && c.domWildcard && (forall v :: 1 <= v <= 12 ==> v in c.month)
    requires hour in c.hour && minute in c.minute && (day + 4) % 7 in c.dayOfWeek
    ensures Matches(c, At(day, hour, minute))
  {
    AtParts(day, hour, minute);
    CivilRoundTrip(day, CivilOf(day));
  }

  ghost function SomeOf<T>(s: set<T>): (v: T)
    requires s != {}
    ensures v in s
  {
    var v :| v in s;
    v
  }

  /** If day-of-month and month are both stars, the search never throws and answers within
      seven days plus one minute. */
  lemma WeeklyAnswers(fields: seq<string>, number: Numeral, c: Cron, after: int)
    requires Sound(c) && |fields| == 5 && Means(c, fields, number) && fields[2] == "*" && fields[3] == "*"
    ensures NextCron(c, after).Some? && NextCron(c, after).value <= after + 7 * MS_PER_DAY + MS_PER_MINUTE
  {
    hide Matches, InField, At, WholeMinute;
    forall v | 1 <= v <= 12 ensures v in c.month { StarCovers(1, 12, number, v); }
    var m, h, w := SomeOf(c.minute), SomeOf(c.hour), SomeOf(c.dayOfWeek);
    var from := FirstMinute(after);
    var day := NextWeekday(from, w, h, m);
    WeekdayDecides(c, day, h, m);
    AtParts(day, h, m);
    var t := At(day, h, m);
    NextIsLeast(c, after);
    assert after < t && WholeMinute(t) && Matches(c, t);
  }

  /** Within a week of any moment there is the given time on the given weekday. */
  lemma NextWeekday(from: int, w: int, hour: int, minute: int) returns (day: int)
    requires 0 <= w <= 6 && 0 <= hour <= 23 && 0 <= minute <= 59
    ensures (day + 4) % 7 == w && from <= At(day, hour, minute) < from + 7 * MS_PER_DAY
  {
    var today := Day(from);
    day := SameWeekday(today, w);
    if At(day, hour, minute) < from {
      day := day + 7;
    }
  }

  lemma SameWeekday(today: int, w: int) returns (day: int)
    requires 0 <= w <= 6
    ensures today <= day < today + 7 && (day + 4) % 7 == w
  {
    day := today + (w - (today + 4)) % 7;
  }

  lemma NumeralField(text: string, n: int, min: int, max: int, number: Numeral)
    requires min <= n <= max && number(text) == Some(n)
    requires ',' !in text && '/' !in text && '-' !in text && text != "*"
    ensures FieldOk(text, min, max, number)
    ensures forall v :: InField(text, min, max, number, v) <==> v == n
  {
    SplitFirst(text, ',', "");
    SplitFirst(text, '/', "");
    SplitFirst(text, '-', "");
    hide Split;
    assert Segment(text, min, max, number) == Some(Range(n, n, 1));
    forall v ensures InField(text, min, max, number, v) <==> v == n {
      assert Pieces(text)[0] == text;
      assert InPiece(text, min, max, number, v) <==> Covers(Range(n, n, 1), v);
    }
  }

  lemma StarField(min: int, max: int, number: Numeral)
    requires min <= max
    ensures FieldOk("*", min, max, number)
    ensures forall v :: InField("*", min, max, number, v) <==> min <= v <= max
  {
    StarSplits(',');
    StarSplits('/');
    forall v ensures InField("*", min, max, number, v) <==> min <= v <= max { StarCovers(min, max, number, v); }
  }

  /** The fields of "0 0 29 2 *". */
  function LeapFields(): seq<string> {
    [['0'], ['0'], ['2', '9'], ['2'], ['*']]
  }

  /** Midnight of every 29 February. */
  const LEAP_DAY := Cron({0}, {0}, {29}, {2}, {0, 1, 2, 3, 4, 5, 6}, false, true)

  /** Whichever way numerals are read, as long as 0, 2 and 29 are: the expression parses, and
      to nothing but this. */
  lemma LeapExpression(number: Numeral, c: Cron)
    requires number(['0']) == Some(0) && number(['2']) == Some(2) && number(['2', '9']) == Some(29)
    ensures Fields("0 0 29 2 *") == LeapFields() && Parses(LeapFields(), number)
    ensures Means(c, LeapFields(), number) <==> c == LEAP_DAY
  {
    hide FieldOk, InField, IsSpace, Fields;
    LeapSplits();
    NumeralField(['0'], 0, 0, 59, number);
    NumeralField(['0'], 0, 0, 23, number);
    NumeralField(['2', '9'], 29, 1, 31, number);
    NumeralField(['2'], 2, 1, 12, number);
    assert ['*'] == "*";
    StarField(0, 7, number);
    LeapMeaning(number, c);
  }

  lemma LeapSplits()
    ensures Fields("0 0 29 2 *") == LeapFields()
  {
    hide Fields, SplitBlank;
    var gaps := [" ", " ", " ", " "];
    assert forall i :: 0 <= i < 5 ==> IsWord(LeapFields()[i]);
    assert AllSpace(" ") && AllSpace("");
    FieldsAre("", LeapFields(), gaps, "");
    LeapText();
  }

  lemma LeapText()
    ensures "" + Spaced(LeapFields(), [" ", " ", " ", " "]) + "" == "0 0 29 2 *"
  {
    var words, gaps := LeapFields(), [" ", " ", " ", " "];
    assert Spaced(words[4..], gaps[4..]) == ['*'];
    assert words[3..][1..] == words[4..] && gaps[3..][1..] == gaps[4..];
    assert Spaced(words[3..], gaps[3..]) == ['2', ' ', '*'];
    assert words[2..][1..] == words[3..] && gaps[2..][1..] == gaps[3..];
    assert Spaced(words[2..], gaps[2..]) == ['2', '9', ' ', '2', ' ', '*'];
    assert words[1..][1..] == words[2..] && gaps[1..][1..] == gaps[2..];
    assert Spaced(words[1..], gaps[1..]) == ['0', ' ', '2', '9', ' ', '2', ' ', '*'];
    assert Spaced(words, gaps) == ['0', ' ', '0', ' ', '2', '9', ' ', '2', ' ', '*'];
  }

  lemma LeapMeaning(number: Numeral, c: Cron)
    requires forall v :: InField(['0'], 0, 59, number, v) <==> v == 0
    requires forall v :: InField(['0'], 0, 23, number, v) <==> v == 0
    requires forall v :: InField(['2', '9'], 1, 31, number, v) <==> v == 29
    requires forall v :: InField(['2'], 1, 12, number, v) <==> v == 2
    requires forall v :: InField(['*'], 0, 7, number, v) <==> 0 <= v <= 7
    ensures Means(c, LeapFields(), number) <==> c == LEAP_DAY
  {
    hide InField;
    assert ['2', '9'] != "*" && ['*'] == "*";
    var fields := LeapFields();
    assert fields[0] == ['0'] && fields[1] == ['0'] && fields[2] == ['2', '9'] && fields[3] == ['2']
        && fields[4] == ['*'];
    if Means(c, LeapFields(), number) {
      forall v ensures v in c.minute <==> v == 0 { assert InField(fields[0], 0, 59, number, v) <==> v == 0; }
      forall v ensures v in c.hour <==> v == 0 { assert InField(fields[1], 0, 23, number, v) <==> v == 0; }
      forall v ensures v in c.dayOfMonth <==> v == 29 { assert InField(fields[2], 1, 31, number, v) <==> v == 29; }
      forall v ensures v in c.month <==> v == 2 { assert InField(fields[3], 1, 12, number, v) <==> v == 2; }
      forall v ensures v in c.dayOfWeek <==> 0 <= v <= 6 {
        assert InField(fields[4], 0, 7, number, v) <==> 0 <= v <= 7;
      }
      assert c.minute == {0} && c.hour == {0} && c.dayOfMonth == {29} && c.month == {2};
      assert c.dayOfWeek == {0, 1, 2, 3, 4, 5, 6};
    }
  }

  lemma WindowDays(day: int, now: int, t: int)
    requires At(day, 0, 0) <= now <= At(day + 1000, 0, 0)
    requires now < t <= FirstMinute(now) + WINDOW
    ensures day <= Day(t) <= day + 1367
  {
    assert FirstMinute(now) <= now + MS_PER_MINUTE;
  }

  lemma OneMidnight(day: int, t: int)
    requires WholeMinute(t) && Day(t) == day && HourOf(t) == 0 && MinuteOf(t) == 0
    ensures t == At(day, 0, 0)
  {
    assert 24 * day <= t / MS_PER_HOUR < 24 * day + 24;
    assert t / MS_PER_HOUR == 24 * day;
    assert 1440 * day <= t / MS_PER_MINUTE < 1440 * day + 60;
    assert t / MS_PER_MINUTE == 1440 * day;
  }

  /** For a thousand days after a leap day no minute in the window is midnight of one. */
  lemma OnlyLeapDay(y: int, now: int, t: int)
    requires IsLeap(y) && WholeMinute(t)
    requires var day := DayFromCivil(Civil(y, 2, 29)); At(day, 0, 0) <= now <= At(day + 1000, 0, 0)
    requires now < t <= FirstMinute(now) + WINDOW
    ensures !Matches(LEAP_DAY, t)
  {
    hide DayFromCivil, IsLeap, At, Day, HourOf, MinuteOf, CivilOf, ValidDate, FirstMinute;
    var day, c := DayFromCivil(Civil(y, 2, 29)), CivilOf(Day(t));
    WindowDays(day, now, t);
    CivilRoundTrip(Day(t), c);
    if c.month == 2 && c.date == 29 {
      LeapFebruary(c);
      LeapDaysApart(y, c.year);
      if HourOf(t) == 0 && MinuteOf(t) == 0 { OneMidnight(day, t); }
    }
  }

  lemma LeapFebruary(c: Civil)
    requires ValidDate(c) && c.month == 2 && c.date == 29
    ensures IsLeap(c.year) && c == Civil(c.year, 2, 29)
  {
  }

  /** Midnight of a leap day is an answer, and for a thousand days it is the last one: the
      next leap day is outside the window, and the search throws. */
  lemma LeapDayThrows(y: int, now: int)
    requires IsLeap(y)
    requires var day := DayFromCivil(Civil(y, 2, 29)); At(day, 0, 0) <= now <= At(day + 1000, 0, 0)
    ensures Matches(LEAP_DAY, At(DayFromCivil(Civil(y, 2, 29)), 0, 0)) && NextCron(LEAP_DAY, now).None?
  {
    hide DayFromCivil, At, CivilOf, Matches;
    LeapMatches(y);
    NextIsLeast(LEAP_DAY, now);
    forall t | WholeMinute(t) && now < t <= FirstMinute(now) + WINDOW ensures !Matches(LEAP_DAY, t) {
      OnlyLeapDay(y, now, t);
    }
  }

  /** In the 366 days before it that midnight is the answer: no earlier leap day is near. */
  lemma LeapDayPlanned(y: int, now: int)
    requires IsLeap(y)
    requires var day := DayFromCivil(Civil(y, 2, 29)); At(day - 366, 0, 0) <= now < At(day, 0, 0)
    ensures NextCron(LEAP_DAY, now) == Some(At(DayFromCivil(Civil(y, 2, 29)), 0, 0))
  {
    hide DayFromCivil, CivilOf, Matches, At, FirstMinute, WholeMinute, NextCron, IsLeap;
    var day := DayFromCivil(Civil(y, 2, 29));
    var slot := At(day, 0, 0);
    LeapMatches(y);
    InWindow(day, now);
    NextIsLeast(LEAP_DAY, now);
    forall t | WholeMinute(t) && now < t < slot ensures !Matches(LEAP_DAY, t) {
      NoEarlierLeapDay(y, now, t);
    }
  }

  lemma InWindow(day: int, now: int)
    requires At(day - 366, 0, 0) <= now
    ensures WholeMinute(At(day, 0, 0)) && At(day, 0, 0) <= FirstMinute(now) + WINDOW
  {
  }

  lemma LeapMatches(y: int)
    requires IsLeap(y)
    ensures Matches(LEAP_DAY, At(DayFromCivil(Civil(y, 2, 29)), 0, 0))
  {
    hide DayFromCivil, At, CivilOf;
    var day := DayFromCivil(Civil(y, 2, 29));
    AtParts(day, 0, 0);
    CivilRoundTrip(day, Civil(y, 2, 29));
  }

  lemma NoEarlierLeapDay(y: int, now: int, t: int)
    requires IsLeap(y)
    requires var day := DayFromCivil(Civil(y, 2, 29)); At(day - 366, 0, 0) <= now < t < At(day, 0, 0)
    ensures !Matches(LEAP_DAY, t)
  {
    hide DayFromCivil, IsLeap, HourOf, MinuteOf, CivilOf, ValidDate;
    var day, c := DayFromCivil(Civil(y, 2, 29)), CivilOf(Day(t));
    assert day - 366 <= Day(t) < day;
    CivilRoundTrip(Day(t), c);
    if c.month == 2 && c.date == 29 {
      LeapFebruary(c);
      LeapDaysApart(y, c.year);
      LeapDaysApart(c.year, y);
    }
  }

  lemma LeapDaysApart(y: int, y': int)
    requires IsLeap(y) && IsLeap(y')
    ensures y < y' ==> DayFromCivil(Civil(y', 2, 29)) > DayFromCivil(Civil(y, 2, 29)) + 1367
    ensures y' < y ==> DayFromCivil(Civil(y', 2, 29)) < DayFromCivil(Civil(y, 2, 29))
  {
    hide DayFromYear;
    if y < y' {
      assert y + 4 <= y';
      YearsApart(y, y');
    } else {
      YearsApart(y', y);
    }
  }
}
