/** Option values, and the order by which rows are ranked: a timestamp first, then a
    string key compared code point by code point. */
module Orders {
  datatype Option<+T> = None | Some(value: T)

  /** Strict lexicographic order on strings. */
  predicate Less(a: string, b: string) {
    |b| > 0 && (|a| == 0 || a[0] < b[0] || (a[0] == b[0] && Less(a[1..], b[1..])))
  }

  /** The first position at which two strings differ decides, and a proper prefix comes first. */
  lemma {:induction false} LessIffFirstDifference(a: string, b: string)
    ensures Less(a, b) <==> exists i: nat ::
      i <= |a| && i < |b| && a[..i] == b[..i] && (i == |a| || a[i] < b[i])
  {
    if |a| > 0 && |b| > 0 && a[0] == b[0] {
      LessIffFirstDifference(a[1..], b[1..]);
      forall j: nat | j <= |a[1..]| && j < |b[1..]|
        ensures a[1..][..j] == b[1..][..j] <==> a[..j + 1] == b[..j + 1]
      {
        assert a[..j + 1] == [a[0]] + a[1..][..j] && b[..j + 1] == [b[0]] + b[1..][..j];
        assert a[..j + 1][1..] == a[1..][..j] && b[..j + 1][1..] == b[1..][..j];
      }
      if Less(a, b) {
        var j: nat :| j <= |a[1..]| && j < |b[1..]| && a[1..][..j] == b[1..][..j] && (j == |a[1..]| || a[1..][j] < b[1..][j]);
        assert a[..j + 1] == b[..j + 1];
      }
      if i: nat :| i <= |a| && i < |b| && a[..i] == b[..i] && (i == |a| || a[i] < b[i]) {
        var j := i - 1;
        assert a[..j + 1] == b[..j + 1];
        assert a[1..][..j] == b[1..][..j];
      }
    } else if |a| > 0 && |b| > 0 {
      assert a[..0] == b[..0];
      if i: nat :| i <= |a| && i < |b| && a[..i] == b[..i] && (i == |a| || a[i] < b[i]) {
        if i > 0 { assert a[..i][0] == b[..i][0]; }
      }
    } else if |b| > 0 {
      assert a[..0] == b[..0];
    }
  }

  lemma {:induction false} LessTotal(a: string, b: string)
    ensures Less(a, b) || Less(b, a) || a == b
  {
    if |a| > 0 && |b| > 0 && a[0] == b[0] {
      LessTotal(a[1..], b[1..]);
      assert a == [a[0]] + a[1..] && b == [b[0]] + b[1..];
    }
  }

  lemma {:induction false} LessIrreflexive(a: string)
    ensures !Less(a, a)
  {
    if |a| > 0 { LessIrreflexive(a[1..]); }
  }

  lemma {:induction false} LessTransitive(a: string, b: string, c: string)
    requires Less(a, b) && Less(b, c)
    ensures Less(a, c)
  {
    if |a| > 0 && a[0] == b[0] == c[0] { LessTransitive(a[1..], b[1..], c[1..]); }
  }

  /** A row's rank: when it was created, and its key as the tie-break. */
  datatype Stamp = Stamp(at: int, id: string)

  predicate Before(x: Stamp, y: Stamp) {
    x.at < y.at || (x.at == y.at && Less(x.id, y.id))
  }

  lemma BeforeTotal(x: Stamp, y: Stamp)
    ensures Before(x, y) || Before(y, x) || x == y
  {
    LessTotal(x.id, y.id);
  }

  lemma BeforeIrreflexive(x: Stamp)
    ensures !Before(x, x)
  {
    LessIrreflexive(x.id);
  }

  lemma BeforeTransitive(x: Stamp, y: Stamp, z: Stamp)
    requires Before(x, y) && Before(y, z)
    ensures Before(x, z)
  {
    if x.at == y.at == z.at { LessTransitive(x.id, y.id, z.id); }
  }

  /** A non-empty finite set of stamps has a least and a greatest element. */
  lemma {:induction false} Extremes(s: set<Stamp>) returns (least: Stamp, greatest: Stamp)
    requires s != {}
    ensures least in s && forall x | x in s :: x == least || Before(least, x)
    ensures greatest in s && forall x | x in s :: x == greatest || Before(x, greatest)
  {
    var a :| a in s;
    var rest := s - {a};
    if rest == {} {
      least, greatest := a, a;
      assert s == {a};
    } else {
      var lo, hi := Extremes(rest);
      BeforeTotal(a, lo);
      BeforeTotal(hi, a);
      least := if Before(a, lo) then a else lo;
      greatest := if Before(hi, a) then a else hi;
      forall x | x in s ensures (x == least || Before(least, x)) && (x == greatest || Before(x, greatest)) {
        if x != a {
          assert x in rest;
          if Before(a, lo) && x != lo { BeforeTransitive(a, lo, x); }
          if Before(hi, a) && x != hi { BeforeTransitive(x, hi, a); }
        }
      }
    }
  }
}
