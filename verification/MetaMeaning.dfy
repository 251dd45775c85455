/** What the in-memory evaluator says of one value, comparison by comparison: dates by the calendar,
    integers by number, texts in the order of their characters but for case
    (common/metadata_utils.py). */
module MetaMeaning {
  import opened Text
  import opened PyValues
  import opened MetaFilter

  // ---- the order of texts ----

  /** The texts agree up to `k`, where the first ends or has the smaller character. */
  predicate DiffersAt(a: string, b: string, k: nat) {
    && k <= |a| && k < |b| && (forall i | 0 <= i < k :: a[i] == b[i]) && (k < |a| ==> a[k] < b[k])
  }

  lemma {:induction false} TextLessIs(a: string, b: string)
    ensures TextLess(a, b) <==> exists k: nat :: DiffersAt(a, b, k)
  {
    if a != "" && b != "" && a[0] == b[0] {
      TextLessIs(a[1..], b[1..]);
      if k: nat :| DiffersAt(a[1..], b[1..], k) {
        assert forall i | 0 < i < k + 1 :: a[i] == a[1..][i - 1] && b[i] == b[1..][i - 1];
        assert DiffersAt(a, b, k + 1);
      }
      if k: nat :| DiffersAt(a, b, k) {
        assert k > 0;
        assert DiffersAt(a[1..], b[1..], k - 1);
      }
    } else if a != "" && b != "" {
      assert forall k: nat | DiffersAt(a, b, k) :: k == 0;
      if TextLess(a, b) {
        assert DiffersAt(a, b, 0);
      }
    } else if b != "" {
      assert DiffersAt(a, b, 0);
    }
  }

  // ---- dates ----

  function DigitOf(c: char): int {
    c as int - '0' as int
  }

  /** Year, month and day as one number. */
  function DayNumber(s: string): int
    requires IsDate(s)
  {
    var year := 1000 * DigitOf(s[0]) + 100 * DigitOf(s[1]) + 10 * DigitOf(s[2]) + DigitOf(s[3]);
    var month := 10 * DigitOf(s[5]) + DigitOf(s[6]);
    var day := 10 * DigitOf(s[8]) + DigitOf(s[9]);
    10000 * year + 100 * month + day
  }

  lemma DigitsOfDate(s: string)
    requires IsDate(s)
    ensures forall i | 0 <= i < 10 && i != 4 && i != 7 :: 0 <= DigitOf(s[i]) <= 9
    ensures s[4] == '-' && s[7] == '-'
  {
  }

  lemma EarlierAt(a: string, b: string, k: nat)
    requires IsDate(a) && IsDate(b) && DiffersAt(a, b, k)
    ensures DayNumber(a) < DayNumber(b)
  {
    DigitsOfDate(a);
    DigitsOfDate(b);
    assert k < 10 && DigitOf(a[k]) < DigitOf(b[k]);
  }

  /** Dates stand in the order of the calendar. */
  lemma DatesAreDays(a: string, b: string)
    requires IsDate(a) && IsDate(b)
    ensures TextLess(a, b) <==> DayNumber(a) < DayNumber(b)
    ensures a == b <==> DayNumber(a) == DayNumber(b)
  {
    TextLessIs(a, b);
    TextLessIs(b, a);
    hide TextLess;
    if k: nat :| DiffersAt(a, b, k) {
      EarlierAt(a, b, k);
    }
    if k: nat :| DiffersAt(b, a, k) {
      EarlierAt(b, a, k);
    }
    if a != b {
      var k := FirstDifference(a, b);
      assert DiffersAt(a, b, k) || DiffersAt(b, a, k);
    }
  }

  lemma {:induction false} FirstDifference(a: string, b: string) returns (k: nat)
    requires |a| == |b| && a != b
    ensures k < |a| && (forall i | 0 <= i < k :: a[i] == b[i]) && a[k] != b[k]
  {
    if a[0] != b[0] {
      k := 0;
    } else {
      assert a == [a[0]] + a[1..] && b == [b[0]] + b[1..];
      var n := FirstDifference(a[1..], b[1..]);
      k := n + 1;
      assert forall i | 0 < i < k :: a[i] == a[1..][i - 1] && b[i] == b[1..][i - 1];
    }
  }

  // ---- one comparison ----

  /** What a comparison says of two numbers. */
  predicate NumbersCompare(op: Op, n: int, m: int) {
    match op
    case Eq => n == m
    case Ne => n != m
    case _ => OrderHolds(op, n, m)
  }

  /** And of two texts, by the order of characters. */
  ghost predicate TextsCompare(op: Op, a: string, b: string) {
    match op
    case Eq => a == b
    case Ne => a != b
    case Gt => exists k: nat :: DiffersAt(b, a, k)
    case Lt => exists k: nat :: DiffersAt(a, b, k)
    case Ge => !exists k: nat :: DiffersAt(a, b, k)
    case Le => !exists k: nat :: DiffersAt(b, a, k)
    case _ => false
  }

  lemma TextsAreCompared(op: Op, a: string, b: string)
    requires IsComparison(op)
    ensures Compares(op, Str(a), Str(b)) <==> TextsCompare(op, a, b)
  {
    TextLessIs(a, b);
    TextLessIs(b, a);
  }

  /** A date asked for is compared with stored dates only, by the calendar; white space around either
      does not count. */
  lemma DateTest(py: Python, op: Op, input: string, value: Value)
    requires IsComparison(op) && IsDate(Strip(py.text(value)))
    ensures Test(py, op, input, value).matched
       <==> IsDate(Strip(input)) && NumbersCompare(op, DayNumber(Strip(input)), DayNumber(Strip(py.text(value))))
  {
    var a, b := Strip(input), Strip(py.text(value));
    hide Strip, IsDate, TextLess, DayNumber;
    if IsDate(a) {
      DatesAreDays(a, b);
      DatesAreDays(b, a);
    }
  }

  /** What the two sides of any other comparison are: the stored text if it is no literal, or else
      both as literals. */
  lemma OtherTest(py: Python, op: Op, input: string, value: Value)
    requires IsComparison(op) && !IsDate(Strip(py.text(value)))
    ensures var i := if py.eval(input).Some? then py.eval(input).value else Str(input);
      var v := if py.eval(input).Some? && value.Str? && py.eval(value.s).Some? then py.eval(value.s).value else value;
      var matched := Test(py, op, input, value).matched;
      && (AsInt(i).Some? && AsInt(v).Some? ==>
            (matched <==> NumbersCompare(op, AsInt(i).value, AsInt(v).value)))
      && (i.Str? && v.Str? ==> (matched <==> TextsCompare(op, Lower(i.s), Lower(v.s))))
      && ((i.Str? && AsInt(v).Some?) || (AsInt(i).Some? && v.Str?) ==> (matched <==> op.Ne?))
  {
    hide Strip, IsDate;
    var i := if py.eval(input).Some? then py.eval(input).value else Str(input);
    var v := if py.eval(input).Some? && value.Str? && py.eval(value.s).Some? then py.eval(value.s).value else value;
    assert Evaluated(py, input, value) == (i, v);
    if i.Str? && v.Str? {
      TextsAreCompared(op, Lower(i.s), Lower(v.s));
    }
    hide TextLess, TextsCompare, Lower, Evaluated;
  }

  /** In a plain text "in" looks for the stored text, and in a list for a member; neither minds case,
      but the list's white space counts. */
  lemma MembershipTest(py: Python, op: Op, input: string, value: Value)
    requires (op.In? || op.NotIn?) && (value.Str? || value.List?)
    ensures var found := match value
        case Str(s) => Occurs(Lower(input), Lower(s))
        case List(items) => exists m <- items :: m.Str? && SameLetters(m.s, input)
        case _ => false;
      Test(py, op, input, value).matched <==> (found == op.In?)
  {
    if value.List? {
      var items, lowered := value.items, NormalizeStrings(value).items;
      hide SameLetters, Lower;
      forall i | 0 <= i < |items| ensures lowered[i] == Str(Lower(input)) <==> items[i].Str? && SameLetters(items[i].s, input) {
        if items[i].Str? {
          LowerIs(items[i].s, input);
        }
      }
      if m :| m in items && m.Str? && SameLetters(m.s, input) {
        var i :| 0 <= i < |items| && items[i] == m;
        assert lowered[i] in lowered;
      }
      if Str(Lower(input)) in lowered {
        var i :| 0 <= i < |lowered| && lowered[i] == Str(Lower(input));
        assert items[i] in items;
      }
    }
  }
}
