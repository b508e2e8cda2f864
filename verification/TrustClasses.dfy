/** The four trust classes of a recorded fingerprint and their strength order. */
module TrustClasses {
  import opened Wrappers

  datatype TrustClass = Exact | Versioned | Heuristic | Volatile {

    /** Higher is stronger. */
    function Rank(): (r: nat)
      ensures 1 <= r <= 4
    {
      match this
      case Exact => 4
      case Versioned => 3
      case Heuristic => 2
      case Volatile => 1
    }

    predicate IsEscalationOver(previous: TrustClass) {
      Rank() > previous.Rank()
    }

    predicate IsDemotionFrom(previous: TrustClass) {
      Rank() < previous.Rank()
    }

    /** Strong enough to support `valid`. */
    predicate IsStrong() {
      Exact? || Versioned?
    }

    /** Lower-case wire spelling. */
    function Wire(): string {
      match this
      case Exact => "exact"
      case Versioned => "versioned"
      case Heuristic => "heuristic"
      case Volatile => "volatile"
    }
  }

  function ParseTrustClass(wire: string): Option<TrustClass> {
    if wire == "exact" then Some(Exact)
    else if wire == "versioned" then Some(Versioned)
    else if wire == "heuristic" then Some(Heuristic)
    else if wire == "volatile" then Some(Volatile)
    else None
  }

  /** The wire spelling is read back as the class it was written from, and nothing else
      is read as a class. */
  lemma TrustClassWireRoundTrip(c: TrustClass, wire: string)
    ensures ParseTrustClass(wire) == Some(c) <==> wire == c.Wire()
  {
    assert "exact"[0] == 'e' && "versioned"[1] == 'e' && "heuristic"[0] == 'h' && "volatile"[1] == 'o';
    assert |"heuristic"| == |"versioned"|;
  }

  /** Ranks separate the classes, so two classes are either equal or strictly ordered. */
  lemma RankSeparates(a: TrustClass, b: TrustClass)
    ensures a == b || a.IsDemotionFrom(b) || a.IsEscalationOver(b)
    ensures !(a.IsDemotionFrom(b) && a.IsEscalationOver(b))
  {
  }

  /** The order of strength, class by class. */
  predicate Weaker(a: TrustClass, b: TrustClass) {
    match a
    case Volatile => !b.Volatile?
    case Heuristic => b.Versioned? || b.Exact?
    case Versioned => b.Exact?
    case Exact => false
  }

  lemma WeakerMeaning(a: TrustClass, b: TrustClass)
    ensures a.IsDemotionFrom(b) <==> Weaker(a, b)
    ensures a.IsEscalationOver(b) <==> Weaker(b, a)
    ensures a.IsStrong() <==> !Weaker(a, Versioned)
  {
  }

  /** The spelling replay reads for each class, and the one a report is written with. */
  lemma TrustClassSpellings(c: TrustClass)
    ensures c.Wire() == "exact" <==> c.Exact?
    ensures c.Wire() == "versioned" <==> c.Versioned?
    ensures c.Wire() == "heuristic" <==> c.Heuristic?
    ensures c.Wire() == "volatile" <==> c.Volatile?
    ensures ParseTrustClass("exact") == Some(Exact) && ParseTrustClass("versioned") == Some(Versioned)
    ensures ParseTrustClass("heuristic") == Some(Heuristic) && ParseTrustClass("volatile") == Some(Volatile)
  {
    assert "exact"[0] == 'e' && "versioned"[1] == 'e' && "heuristic"[0] == 'h' && "volatile"[1] == 'o';
  }
}
