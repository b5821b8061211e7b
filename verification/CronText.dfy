/** Cron expressions as text: splitting, integers, and the texts phrases compile to. */
module CronText {
  import opened MemoryModel
  import opened Calendar
  import opened Cron

  /** str.split on one character: always at least one piece. */
  function Pieces(s: string, c: char): (r: seq<string>)
    ensures r != []
  {
    if s == "" then [""]
    else
      var rest := Pieces(s[1..], c);
      if s[0] == c then [""] + rest else [[s[0]] + rest[0]] + rest[1..]
  }

  /** str.split with a limit of one: what stands before the first c, and what stands after it, if there is one. */
  function Halves(s: string, c: char): (string, Option<string>) {
    if s == "" then ("", None)
    else if s[0] == c then ("", Some(s[1..]))
    else
      var (a, b) := Halves(s[1..], c);
      ([s[0]] + a, b)
  }

  predicate Digit(c: char) { '0' <= c <= '9' }

  function DigitValue(c: char): nat
    requires Digit(c)
  {
    (c - '0') as int
  }

  function Natural(s: string): Option<nat> {
    if s == "" then Some(0)
    else
      var n := |s| - 1;
      if !Digit(s[n]) || Natural(s[..n]).None? then None else Some(10 * Natural(s[..n]).value + DigitValue(s[n]))
  }

  /** int() on the characters a cron expression may hold: digits, perhaps after a minus sign. */
  function Integer(s: string): Option<int> {
    var negative := s != "" && s[0] == '-';
    var digits := if negative then s[1..] else s;
    if digits == "" || Natural(digits).None? then None
    else
      var v: int := Natural(digits).value;
      Some(if negative then -v else v)
  }

  function ParseSpan(s: string): Span {
    if s == "*" || s == "" then Any
    else
      var (a, b) := Halves(s, '-');
      match b
      case Some(last) =>
        if Integer(a).None? || Integer(last).None? then BadNumber else Between(Integer(a).value, Integer(last).value)
      case None => if Integer(s).None? then BadNumber else Between(Integer(s).value, Integer(s).value)
  }

  function ParsePart(s: string): Part {
    var (range, step) := Halves(s, '/');
    Part(ParseSpan(range), if step.None? then Some(1) else Integer(step.value))
  }

  function ParseParts(ps: seq<string>): Field { if ps == [] then [] else [ParsePart(ps[0])] + ParseParts(ps[1..]) }

  function ParseField(s: string): Field { ParseParts(Pieces(s, ',')) }

  /** str.split on blanks drops the empty pieces. */
  function Nonempty(ps: seq<string>): seq<string> {
    if ps == [] then [] else (if ps[0] == "" then [] else [ps[0]]) + Nonempty(ps[1..])
  }

  function Words(s: string): seq<string> { Nonempty(Pieces(s, ' ')) }

  /** None is the error for a number of fields other than five. */
  function ParseCron(s: string): Option<Schedule> {
    var w := Words(s);
    if |w| != 5 then None
    else Some(Schedule(ParseField(w[0]), ParseField(w[1]), ParseField(w[2]), ParseField(w[3]), ParseField(w[4])))
  }

  // ----- decimal text ----------------------------------------------------------

  function Decimal(n: nat): (s: string)
    ensures s != "" && forall i :: 0 <= i < |s| ==> Digit(s[i])
  {
    if n < 10 then ['0' + n as char] else Decimal(n / 10) + ['0' + (n % 10) as char]
  }

  lemma {:induction false} DecimalReadsBack(n: nat)
    ensures Natural(Decimal(n)) == Some(n)
  {
    var s := Decimal(n);
    if n < 10 {
      assert s[..0] == "" && Natural(s[..0]) == Some(0);
    } else {
      DecimalReadsBack(n / 10);
      assert s[..|s| - 1] == Decimal(n / 10);
    }
  }

  /** A minus sign before a number is read; a text with any other character is not a number. */
  lemma {:induction false} IntegerTexts(n: nat, s: string)
    ensures Integer(Decimal(n)) == Some(n)
    ensures Integer("-" + Decimal(n)).Some? && Integer("-" + Decimal(n)).value + n == 0
    ensures (exists i :: 0 <= i < |s| && !Digit(s[i])) ==> Natural(s) == None
  {
    DecimalReadsBack(n);
    assert ("-" + Decimal(n))[1..] == Decimal(n);
    if s == "" {
    } else {
      var k := |s| - 1;
      assert forall i :: 0 <= i < k ==> s[..k][i] == s[i];
      if Digit(s[k]) { IntegerTexts(n, s[..k]); }
    }
  }

  predicate Free(s: string, c: char) { forall i :: 0 <= i < |s| ==> s[i] != c }

  lemma {:induction false} WholePiece(s: string, c: char)
    requires Free(s, c)
    ensures Pieces(s, c) == [s] && Halves(s, c) == (s, None)
  {
    if s == "" {
    } else {
      assert Free(s[1..], c);
      WholePiece(s[1..], c);
      assert [s[0]] + s[1..] == s;
    }
  }

  lemma {:induction false} FirstPiece(s: string, t: string, c: char)
    requires Free(s, c)
    ensures Pieces(s + [c] + t, c) == [s] + Pieces(t, c) && Halves(s + [c] + t, c) == (s, Some(t))
  {
    var all := s + [c] + t;
    if s == "" {
      assert all[1..] == t;
    } else {
      assert Free(s[1..], c);
      assert all[1..] == s[1..] + [c] + t;
      FirstPiece(s[1..], t, c);
      assert [s[0]] + s[1..] == s;
    }
  }

  lemma OnePart(s: string)
    ensures ParseParts([s]) == [ParsePart(s)]
  {
  }

  lemma NumberField(n: nat)
    ensures ParseField(Decimal(n)) == Exactly(n)
  {
    var s := Decimal(n);
    WholePiece(s, ',');
    WholePiece(s, '/');
    WholePiece(s, '-');
    DecimalReadsBack(n);
    OnePart(s);
    assert s != "*" by { assert Digit(s[0]); }
  }

  lemma StarField()
    ensures ParseField("*") == STAR
  {
    WholePiece("*", ',');
    WholePiece("*", '/');
    OnePart("*");
  }

  lemma RangeField(a: nat, b: nat)
    ensures ParseField(Decimal(a) + "-" + Decimal(b)) == [Part(Between(a, b), Some(1))]
  {
    var s := Decimal(a) + "-" + Decimal(b);
    WholePiece(s, ',');
    WholePiece(s, '/');
    FirstPiece(Decimal(a), Decimal(b), '-');
    DecimalReadsBack(a);
    DecimalReadsBack(b);
    OnePart(s);
    assert |s| > 1;
  }

  function Spaced(m: string, h: string, d: string): string { m + " " + h + " * * " + d }

  lemma SpacedWords(m: string, h: string, d: string)
    requires Free(m, ' ') && Free(h, ' ') && Free(d, ' ') && m != "" && h != "" && d != ""
    ensures Words(Spaced(m, h, d)) == [m, h, "*", "*", d]
  {
    var tail3, tail4 := "*" + " " + d, "*" + " " + ("*" + " " + d);
    FirstPiece(m, h + " " + tail4, ' ');
    FirstPiece(h, tail4, ' ');
    FirstPiece("*", tail3, ' ');
    FirstPiece("*", d, ' ');
    WholePiece(d, ' ');
    assert Spaced(m, h, d) == m + " " + (h + " " + tail4);
    var ps := [m, h, "*", "*", d];
    assert Pieces(Spaced(m, h, d), ' ') == ps;
    AllNonempty(ps);
  }

  lemma {:induction false} AllNonempty(ps: seq<string>)
    requires "" !in ps
    ensures Nonempty(ps) == ps
  {
    if ps == [] {
    } else {
      AllNonempty(ps[1..]);
      assert [ps[0]] + ps[1..] == ps;
    }
  }

  /** The text a phrase compiles to. */
  function CronOf(p: Phrase): string {
    match p
    case Hourly => "0 * * * *"
    case Daily(hour) => Spaced("0", Decimal(if hour < 0 then 0 else hour), "*")
    case OnWeekday(t, dow) =>
      Spaced(Decimal(ParseTime(t, 9, 0).1), Decimal(ParseTime(t, 9, 0).0), Decimal(if dow < 0 then 0 else dow))
    case Weekdays(t) => Spaced(Decimal(ParseTime(t, 9, 0).1), Decimal(ParseTime(t, 9, 0).0), "1-5")
    case DailyAt(t) => Spaced(Decimal(ParseTime(t, 9, 0).1), Decimal(ParseTime(t, 9, 0).0), "*")
  }

  lemma SpacedParses(m: string, h: string, d: string)
    requires Free(m, ' ') && Free(h, ' ') && Free(d, ' ') && m != "" && h != "" && d != ""
    ensures ParseCron(Spaced(m, h, d)) == Some(Schedule(ParseField(m), ParseField(h), STAR, STAR, ParseField(d)))
  {
    hide Words, ParseField;
    SpacedWords(m, h, d);
    StarField();
  }

  lemma ShortNumbers()
    ensures Decimal(0) == "0" && Decimal(1) == "1" && Decimal(5) == "5"
  {
  }

  /** The text of a phrase, read back by the evaluator, is the phrase's schedule. */
  lemma PhraseTextParses(p: Phrase)
    requires Sensible(p)
    ensures ParseCron(CronOf(p)) == Some(ToCron(p))
  {
    hide ParseCron, ParseField, Decimal;
    ShortNumbers();
    StarField();
    NumberField(0);
    RangeField(1, 5);
    match p
    case Hourly =>
      assert CronOf(p) == Spaced("0", "*", "*");
      SpacedParses("0", "*", "*");
    case Daily(hour) =>
      NumberField(hour);
      SpacedParses("0", Decimal(hour), "*");
    case OnWeekday(t, dow) =>
      var (h, m) := ParseTime(t, 9, 0);
      NumberField(h);
      NumberField(m);
      NumberField(dow);
      SpacedParses(Decimal(m), Decimal(h), Decimal(dow));
    case Weekdays(t) =>
      var (h, m) := ParseTime(t, 9, 0);
      NumberField(h);
      NumberField(m);
      assert "1" + "-" + "5" == "1-5";
      SpacedParses(Decimal(m), Decimal(h), "1-5");
    case DailyAt(t) =>
      var (h, m) := ParseTime(t, 9, 0);
      NumberField(h);
      NumberField(m);
      SpacedParses(Decimal(m), Decimal(h), "*");
  }

  /** From words to a run: the text any phrase compiles to parses and matches within seven days of any instant. */
  lemma PhraseTextRunsWithinAWeek(p: Phrase, now: Stamp)
    requires Sensible(p) && Valid(now)
    ensures ParseCron(CronOf(p)).Some?
    ensures exists s :: FirstVerdict(ParseCron(CronOf(p)).value, now, s, Yes) && Minutes(s) <= Minutes(now) + 7 * 1440
  {
    hide FirstVerdict, Minutes, ParseCron, CronOf, ToCron;
    PhraseTextParses(p);
    PhrasesRunWithinAWeek(p, now);
  }

  // ----- any expression read back ---------------------------------------------------

  /** A part that can be written: natural bounds and a natural step. */
  predicate Writable(p: Part) {
    && p.step.Some? && p.step.value >= 0 && !p.span.BadNumber?
    && (p.span.Between? ==> p.span.first >= 0 && p.span.last >= 0)
  }

  function Written(n: int): string { Decimal(if n < 0 then 0 else n) }

  /** A star or first-last, then a slash and the step. */
  function PartText(p: Part): string
    requires Writable(p)
  {
    (if p.span.Any? then "*" else Written(p.span.first) + "-" + Written(p.span.last)) + "/" + Written(p.step.value)
  }

  /** The parts, separated by commas. */
  function FieldText(f: Field): string
    requires f != [] && forall p :: p in f ==> Writable(p)
  {
    if |f| == 1 then PartText(f[0]) else PartText(f[0]) + "," + FieldText(f[1..])
  }

  lemma SpanReadsBack(p: Part)
    requires Writable(p)
    ensures ParseSpan(if p.span.Any? then "*" else Written(p.span.first) + "-" + Written(p.span.last)) == p.span
  {
    if p.span.Between? {
      var a, b := Written(p.span.first), Written(p.span.last);
      FirstPiece(a, b, '-');
      assert |a + "-" + b| > 1;
      DecimalReadsBack(p.span.first);
      DecimalReadsBack(p.span.last);
    }
  }

  lemma PartReadsBack(p: Part)
    requires Writable(p)
    ensures ParsePart(PartText(p)) == p && Free(PartText(p), ',') && Free(PartText(p), ' ') && PartText(p) != ""
  {
    hide ParseSpan, Natural;
    var range := if p.span.Any? then "*" else Written(p.span.first) + "-" + Written(p.span.last);
    var step := Written(p.step.value);
    assert PartText(p) == range + "/" + step;
    FirstPiece(range, step, '/');
    SpanReadsBack(p);
    DecimalReadsBack(p.step.value);
  }

  /** Every field that can be written, steps and lists included, reads back as itself. */
  lemma {:induction false} FieldReadsBack(f: Field)
    requires f != [] && forall p :: p in f ==> Writable(p)
    ensures ParseField(FieldText(f)) == f && Free(FieldText(f), ' ') && FieldText(f) != ""
  {
    hide ParsePart, PartText, Writable;
    assert f[0] in f;
    PartReadsBack(f[0]);
    if |f| == 1 {
      WholePiece(PartText(f[0]), ',');
      OnePart(PartText(f[0]));
    } else {
      FieldReadsBack(f[1..]);
      FirstPiece(PartText(f[0]), FieldText(f[1..]), ',');
      var ps := Pieces(FieldText(f[1..]), ',');
      assert ([PartText(f[0])] + ps)[1..] == ps;
      assert f == [f[0]] + f[1..];
    }
  }

  predicate WritableField(f: Field) { f != [] && forall p :: p in f ==> Writable(p) }

  function ScheduleText(c: Schedule): string
    requires WritableField(c.minute) && WritableField(c.hour) && WritableField(c.dom)
    requires WritableField(c.month) && WritableField(c.dow)
  {
    FieldText(c.minute) + " " + (FieldText(c.hour) + " " + (FieldText(c.dom) + " "
      + (FieldText(c.month) + " " + FieldText(c.dow))))
  }

  /** Every expression that can be written reads back as itself: five fields, in the order minute to day of week. */
  lemma ExpressionReadsBack(c: Schedule)
    requires WritableField(c.minute) && WritableField(c.hour) && WritableField(c.dom)
    requires WritableField(c.month) && WritableField(c.dow)
    ensures ParseCron(ScheduleText(c)) == Some(c)
  {
    hide ParseField, FieldText, Pieces;
    FieldReadsBack(c.minute);
    FieldReadsBack(c.hour);
    FieldReadsBack(c.dom);
    FieldReadsBack(c.month);
    FieldReadsBack(c.dow);
    var m, h, d := FieldText(c.minute), FieldText(c.hour), FieldText(c.dom);
    var mo, w := FieldText(c.month), FieldText(c.dow);
    FirstPiece(m, h + " " + (d + " " + (mo + " " + w)), ' ');
    FirstPiece(h, d + " " + (mo + " " + w), ' ');
    FirstPiece(d, mo + " " + w, ' ');
    FirstPiece(mo, w, ' ');
    WholePiece(w, ' ');
    var ps := [m, h, d, mo, w];
    assert Pieces(ScheduleText(c), ' ') == ps;
    AllNonempty(ps);
  }

  /** An empty part stands for the whole range, as a star does. */
  lemma EmptyField()
    ensures ParseField("") == STAR
  {
    WholePiece("", ',');
    WholePiece("", '/');
    OnePart("");
  }
}
