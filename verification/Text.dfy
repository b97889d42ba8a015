/** Lexicographic order on strings: the order of identities, actors and operation texts. */
module Text {

  predicate Less(a: string, b: string)
  {
    b != [] && (a == [] || a[0] < b[0] || (a[0] == b[0] && Less(a[1..], b[1..])))
  }

  /** At position `n`, the first difference, `a` has ended or has the smaller character. */
  ghost predicate SmallerAt(a: string, b: string, n: nat)
  {
    n <= |a| && n < |b| && a[..n] == b[..n] && (n == |a| || a[n] < b[n])
  }

  /** At the first character where they differ, or where it ends, `a` is smaller. */
  ghost predicate Earlier(a: string, b: string)
  {
    exists n: nat :: SmallerAt(a, b, n)
  }

  lemma {:induction false} LessAt(a: string, b: string, n: nat)
    requires SmallerAt(a, b, n)
    ensures Less(a, b)
  {
    if n > 0 {
      assert a[0] == a[..n][0] == b[..n][0] == b[0];
      assert a[1..][..n - 1] == a[..n][1..] && b[1..][..n - 1] == b[..n][1..];
      LessAt(a[1..], b[1..], n - 1);
    }
  }

  lemma {:induction false} FirstDifference(a: string, b: string) returns (n: nat)
    requires Less(a, b)
    ensures SmallerAt(a, b, n)
  {
    if a == [] || a[0] < b[0] {
      n := 0;
    } else {
      var m := FirstDifference(a[1..], b[1..]);
      n := m + 1;
      assert a[..n] == [a[0]] + a[1..][..m] && b[..n] == [b[0]] + b[1..][..m];
    }
  }

  /** The order is decided by the first character that differs. */
  lemma LessMeans(a: string, b: string)
    ensures Less(a, b) <==> Earlier(a, b)
  {
    if Less(a, b) {
      var n := FirstDifference(a, b);
    }
    if n: nat :| SmallerAt(a, b, n) {
      LessAt(a, b, n);
    }
  }

  lemma {:induction false} Irreflexive(a: string)
    ensures !Less(a, a)
  {
    if a != [] {
      Irreflexive(a[1..]);
    }
  }

  lemma {:induction false} Transitive(a: string, b: string, c: string)
    requires Less(a, b) && Less(b, c)
    ensures Less(a, c)
  {
    if a != [] && a[0] == b[0] == c[0] {
      Transitive(a[1..], b[1..], c[1..]);
    }
  }

  lemma {:induction false} Total(a: string, b: string)
    ensures Less(a, b) || a == b || Less(b, a)
  {
    if a != [] && b != [] && a[0] == b[0] {
      Total(a[1..], b[1..]);
      assert a == [a[0]] + a[1..] && b == [b[0]] + b[1..];
    }
  }
}

/** Operation identities, ordered by numeric counter and then by actor bytes written in hexadecimal. */
module Operations {
  import Text
  import opened Wrappers

  type Actor = string
  datatype OpId = OpId(counter: nat, actor: Actor)

  predicate Precedes(a: OpId, b: OpId)
  {
    a.counter < b.counter || (a.counter == b.counter && Text.Less(a.actor, b.actor))
  }

  /** A greater counter wins; at equal counters, the actor with the greater first different character. */
  lemma PrecedesMeans(a: OpId, b: OpId)
    ensures Precedes(a, b) <==>
            a.counter < b.counter || (a.counter == b.counter && Text.Earlier(a.actor, b.actor))
  {
    Text.LessMeans(a.actor, b.actor);
  }

  lemma Irreflexive(a: OpId)
    ensures !Precedes(a, a)
  {
    Text.Irreflexive(a.actor);
  }

  lemma Transitive(a: OpId, b: OpId, c: OpId)
    requires Precedes(a, b) && Precedes(b, c)
    ensures Precedes(a, c)
  {
    if a.counter == b.counter == c.counter {
      Text.Transitive(a.actor, b.actor, c.actor);
    }
  }

  lemma Total(a: OpId, b: OpId)
    ensures Precedes(a, b) || a == b || Precedes(b, a)
  {
    Text.Total(a.actor, b.actor);
  }

  // ----- the text `counter@actor` under which an operation is listed as an origin

  function Digit(n: nat): char
    requires n < 10
  {
    ['0', '1', '2', '3', '4', '5', '6', '7', '8', '9'][n]
  }

  function DigitValue(c: char): Option<nat>
  {
    if '0' <= c <= '9' then Some(c as int - '0' as int) else None
  }

  function Decimal(n: nat): string
  {
    if n < 10 then [Digit(n)] else Decimal(n / 10) + [Digit(n % 10)]
  }

  function ParseDecimal(s: string): Option<nat>
  {
    if s == "" then None
    else
      var last := DigitValue(s[|s| - 1]);
      if last == None then None
      else if |s| == 1 then last
      else match ParseDecimal(s[..|s| - 1]) {
        case None => None
        case Some(n) => Some(10 * n + last.value)
      }
  }

  function Render(op: OpId): string
  {
    Decimal(op.counter) + "@" + op.actor
  }

  /** `split_once('@')`. */
  function SplitOnce(s: string): Option<(string, string)>
  {
    if s == "" then None
    else if s[0] == '@' then Some(("", s[1..]))
    else match SplitOnce(s[1..]) {
      case None => None
      case Some((l, r)) => Some(([s[0]] + l, r))
    }
  }

  /** `operation_rank`: the numeric rank behind an origin text. */
  function Rank(origin: string): Option<OpId>
  {
    match SplitOnce(origin)
    case None => None
    case Some((counter, actor)) =>
      match ParseDecimal(counter) {
        case None => None
        case Some(n) => Some(OpId(n, actor))
      }
  }

  lemma {:induction false} DecimalRoundTrip(n: nat)
    ensures ParseDecimal(Decimal(n)) == Some(n)
    ensures '@' !in Decimal(n)
  {
    if n >= 10 {
      DecimalRoundTrip(n / 10);
      assert Decimal(n)[..|Decimal(n)| - 1] == Decimal(n / 10);
    }
  }

  lemma {:induction false} SplitAtFirst(l: string, r: string)
    requires '@' !in l
    ensures SplitOnce(l + "@" + r) == Some((l, r))
  {
    var s := l + "@" + r;
    if l == "" {
      assert s[1..] == r;
    } else {
      assert s[1..] == l[1..] + "@" + r;
      assert l[0] in l && [s[0]] + l[1..] == l;
      SplitAtFirst(l[1..], r);
    }
  }

  /** Origins read as in the original: the counter in decimal, then the actor. */
  lemma RenderExamples()
    ensures Render(OpId(9, "ff")) == "9@ff" && Render(OpId(10, "00")) == "10@00" && Render(OpId(10, "01")) == "10@01"
  {
    assert Decimal(1) == "1";
    assert Decimal(10) == "10";
  }

  /** Ranking an origin recovers the operation it names. */
  lemma RankOfRender(op: OpId)
    ensures Rank(Render(op)) == Some(op)
  {
    DecimalRoundTrip(op.counter);
    SplitAtFirst(Decimal(op.counter), op.actor);
  }
}
