/** Times as SQL compares them: nanoseconds, in the order of their texts. */
module Stamps {
  import opened Texts

  /** The printed fraction of the one is cut short inside that of the other. */
  predicate CutInside(n: nat, m: nat) {
    IsPrefix(FractionOf(n), FractionOf(m))
  }

  /** The texts of these times are in the wrong order: they lie in one whole second, and the
      fraction of the earlier is cut short inside that of the later. */
  predicate Swapped(a: int, b: int) {
    && a / BILLION == b / BILLION && a != b
    && if a < b then CutInside(a % BILLION, b % BILLION) else CutInside(b % BILLION, a % BILLION)
  }

  /** The text of a sorts before the text of b. */
  predicate Sooner(a: int, b: int) {
    if Swapped(a, b) then b < a else a < b
  }

  /** As texts, the deadline is not after now. */
  predicate Due(deadline: int, now: int) {
    !Sooner(now, deadline)
  }

  /** A deadline is due as soon as its whole second has passed, and never a second too early. */
  lemma DueMeans(deadline: int, now: int)
    ensures Due(deadline, now) ==> deadline < now + BILLION && deadline / BILLION <= now / BILLION
    ensures !Due(deadline, now) ==> now < deadline + BILLION && now / BILLION <= deadline / BILLION
    ensures deadline / BILLION < now / BILLION ==> Due(deadline, now)
    ensures deadline / BILLION != now / BILLION ==> (Due(deadline, now) <==> deadline <= now)
    ensures Due(now, now)
  {
    hide CutInside;
    SameSecondClose(deadline, now);
  }

  lemma SameSecondClose(a: int, b: int)
    ensures a / BILLION == b / BILLION ==> a - b < BILLION && b - a < BILLION
    ensures a / BILLION < b / BILLION ==> a < b
  {
  }

  lemma SoonerMeans(a: int, b: int)
    ensures Sooner(a, b) ==> a < b + BILLION
    ensures !Sooner(a, b) ==> b < a + BILLION
  {
    hide CutInside;
    SameSecondClose(a, b);
  }

  // ---- a total order ----

  lemma SoonerIsTail(a: int, b: int)
    requires a / BILLION == b / BILLION
    ensures Sooner(a, b) <==> Less(TailOf(a % BILLION), TailOf(b % BILLION))
  {
    hide Less, TailOf, FractionOf;
    var n, m := a % BILLION, b % BILLION;
    assert a < b <==> n < m;
    if n < m {
      TailsCompare("", n, m);
      assert "" + TailOf(n) == TailOf(n) && "" + TailOf(m) == TailOf(m);
    } else if m < n {
      TailsCompare("", m, n);
      assert "" + TailOf(n) == TailOf(n) && "" + TailOf(m) == TailOf(m);
    } else {
      IrreflexiveText(TailOf(n));
    }
  }

  /** Exactly one of two different times sorts before the other. */
  lemma SoonerTotal(a: int, b: int)
    ensures a == b <==> !Sooner(a, b) && !Sooner(b, a)
    ensures !(Sooner(a, b) && Sooner(b, a))
  {
    hide CutInside;
  }

  lemma SoonerTransitive(a: int, b: int, c: int)
    requires Sooner(a, b) && Sooner(b, c)
    ensures Sooner(a, c)
  {
    hide Less, TailOf, Sooner;
    if a / BILLION == b / BILLION == c / BILLION {
      SoonerIsTail(a, b);
      SoonerIsTail(b, c);
      SoonerIsTail(a, c);
      LessTransitive(TailOf(a % BILLION), TailOf(b % BILLION), TailOf(c % BILLION));
    } else {
      SoonerBySecond(a, b);
      SoonerBySecond(b, c);
      SoonerBySecond(a, c);
    }
  }

  lemma SoonerBySecond(a: int, b: int)
    ensures Sooner(a, b) ==> a / BILLION <= b / BILLION
    ensures a / BILLION < b / BILLION ==> Sooner(a, b)
  {
    hide CutInside;
  }
}
