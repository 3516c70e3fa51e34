/**
 * Sort keys. Every comparator of the pipeline is a chain of comparisons: a
 * string, then the date tie-break, then another string. A `Key` is that chain
 * written out as a value, and `KeyLess` compares two chains lexicographically.
 * `KeyLess` is a strict total order on keys, so two records are "equal" for a
 * comparator exactly when their keys are equal.
 */
module Keys {
  import opened GoStrings

  /** One link of a key chain. A date is `Parsed` (its instant) when parsing
      succeeded and `Unparsed` (its raw text) otherwise; parsed dates sort first. */
  datatype Part = Text(s: string) | Parsed(t: int) | Unparsed(raw: string)

  type Key = seq<Part>

  function Rank(p: Part): nat {
    match p
    case Text(_) => 0
    case Parsed(_) => 1
    case Unparsed(_) => 2
  }

  predicate PartLess(p: Part, q: Part) {
    match (p, q)
    case (Text(a), Text(b)) => StrLess(a, b)
    case (Parsed(a), Parsed(b)) => a < b
    case (Unparsed(a), Unparsed(b)) => StrLess(a, b)
    case _ => Rank(p) < Rank(q)
  }

  /** Lexicographic order on key chains. */
  predicate KeyLess(a: Key, b: Key) {
    if a == [] then b != []
    else if b == [] then false
    else PartLess(a[0], b[0]) || (a[0] == b[0] && KeyLess(a[1..], b[1..]))
  }

  lemma PartLessIrreflexive(p: Part)
    ensures !PartLess(p, p)
  {
    match p
    case Text(a) => StrLessIrreflexive(a);
    case Parsed(_) =>
    case Unparsed(a) => StrLessIrreflexive(a);
  }

  lemma PartLessTransitive(p: Part, q: Part, r: Part)
    requires PartLess(p, q) && PartLess(q, r)
    ensures PartLess(p, r)
  {
    if p.Text? && q.Text? && r.Text? {
      StrLessTransitive(p.s, q.s, r.s);
    } else if p.Unparsed? && q.Unparsed? && r.Unparsed? {
      StrLessTransitive(p.raw, q.raw, r.raw);
    }
  }

  lemma PartLessTotal(p: Part, q: Part)
    requires p != q
    ensures PartLess(p, q) || PartLess(q, p)
  {
    if p.Text? && q.Text? {
      StrLessTotal(p.s, q.s);
    } else if p.Unparsed? && q.Unparsed? {
      StrLessTotal(p.raw, q.raw);
    }
  }

  lemma {:induction false} KeyLessIrreflexive(a: Key)
    ensures !KeyLess(a, a)
  {
    if a != [] {
      PartLessIrreflexive(a[0]);
      KeyLessIrreflexive(a[1..]);
    }
  }

  lemma {:induction false} KeyLessTransitive(a: Key, b: Key, c: Key)
    requires KeyLess(a, b) && KeyLess(b, c)
    ensures KeyLess(a, c)
  {
    if a != [] {
      if PartLess(a[0], b[0]) && PartLess(b[0], c[0]) {
        PartLessTransitive(a[0], b[0], c[0]);
      } else if a[0] == b[0] == c[0] {
        KeyLessTransitive(a[1..], b[1..], c[1..]);
      }
    }
  }

  /** Two different keys are always ordered one way or the other. */
  lemma {:induction false} KeyLessTotal(a: Key, b: Key)
    requires a != b
    ensures KeyLess(a, b) || KeyLess(b, a)
  {
    if a != [] && b != [] {
      if a[0] != b[0] {
        PartLessTotal(a[0], b[0]);
      } else {
        assert a == [a[0]] + a[1..] && b == [b[0]] + b[1..];
        KeyLessTotal(a[1..], b[1..]);
      }
    }
  }

  lemma {:induction false} KeyLessAsymmetric(a: Key, b: Key)
    ensures !(KeyLess(a, b) && KeyLess(b, a))
  {
    if a != [] && b != [] {
      PartLessAsymmetric(a[0], b[0]);
      PartLessIrreflexive(a[0]);
      KeyLessAsymmetric(a[1..], b[1..]);
    }
  }

  lemma PartLessAsymmetric(p: Part, q: Part)
    ensures !(PartLess(p, q) && PartLess(q, p))
  {
    if p.Text? && q.Text? {
      StrLessAsymmetric(p.s, q.s);
    } else if p.Unparsed? && q.Unparsed? {
      StrLessAsymmetric(p.raw, q.raw);
    }
  }

  /** "Not after" is transitive: the order that a sorted sequence respects. */
  lemma KeyNotLessTransitive(a: Key, b: Key, c: Key)
    requires !KeyLess(b, a) && !KeyLess(c, b)
    ensures !KeyLess(c, a)
  {
    if a != b && b != c {
      KeyLessTotal(a, b);
      KeyLessTotal(b, c);
      KeyLessTransitive(a, b, c);
      KeyLessAsymmetric(a, c);
    }
  }

  lemma KeyLessCons(p: Part, a: Key, q: Part, b: Key)
    ensures KeyLess([p] + a, [q] + b) == (PartLess(p, q) || (p == q && KeyLess(a, b)))
  {
    assert ([p] + a)[1..] == a && ([q] + b)[1..] == b;
  }

  /** KeyLess on chains of three links, spelled out. */
  lemma KeyLess3(a0: Part, a1: Part, a2: Part, b0: Part, b1: Part, b2: Part)
    ensures KeyLess([a0, a1, a2], [b0, b1, b2]) ==
      (PartLess(a0, b0) || (a0 == b0 && (PartLess(a1, b1) || (a1 == b1 && PartLess(a2, b2)))))
  {
    KeyLess1(a2, b2);
    KeyLessCons(a1, [a2], b1, [b2]);
    assert [a1, a2] == [a1] + [a2] && [b1, b2] == [b1] + [b2];
    KeyLessCons(a0, [a1, a2], b0, [b1, b2]);
    assert [a0, a1, a2] == [a0] + [a1, a2] && [b0, b1, b2] == [b0] + [b1, b2];
  }

  lemma KeyLess1(a0: Part, b0: Part)
    ensures KeyLess([a0], [b0]) == PartLess(a0, b0)
  {
    assert [a0][1..] == [] && [b0][1..] == [];
  }
}
