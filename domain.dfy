/** The records the storefront passes around: catalog products and cart lines. */
module Domain {

  /** An optional value; `None` stands for JavaScript's `undefined`/`null`. */
  datatype Option<T> = None | Some(value: T)

  /** A catalog product. Prices are whole cents, so no arithmetic depends on floating point. */
  datatype Product = Product(id: int, title: string, price: nat, category: string, image: string)

  /** A cart line: the product's fields (`...product`) together with a quantity. */
  datatype CartLine = CartLine(product: Product, quantity: int) {
    function Id(): int { product.id }
  }

  /** `a` is `b` with some elements left out, the rest in their original order. */
  ghost predicate SubsequenceOf<T>(a: seq<T>, b: seq<T>)
    decreases |b|
  {
    a == [] || (b != [] && ((a[0] == b[0] && SubsequenceOf(a[1..], b[1..])) || SubsequenceOf(a, b[1..])))
  }

  /** Leaving out elements twice is leaving them out once. */
  lemma {:induction false} SubsequenceTransitive<T>(a: seq<T>, b: seq<T>, c: seq<T>)
    requires SubsequenceOf(a, b) && SubsequenceOf(b, c)
    ensures SubsequenceOf(a, c)
    decreases |c|
  {
    if a != [] {
      if b[0] == c[0] && SubsequenceOf(b[1..], c[1..]) {
        if a[0] == b[0] && SubsequenceOf(a[1..], b[1..]) {
          SubsequenceTransitive(a[1..], b[1..], c[1..]);
        } else {
          SubsequenceTransitive(a, b[1..], c[1..]);
        }
      } else {
        SubsequenceTransitive(a, b, c[1..]);
      }
    }
  }

  /** Appending the same element to both sides, or only to the longer one, keeps the relation. */
  lemma {:induction false} SubsequenceExtend<T>(a: seq<T>, b: seq<T>, e: T)
    requires SubsequenceOf(a, b)
    ensures SubsequenceOf(a, b + [e]) && SubsequenceOf(a + [e], b + [e])
    decreases |b|
  {
    if b != [] {
      assert (b + [e])[0] == b[0] && (b + [e])[1..] == b[1..] + [e];
    }
    if a == [] {
      assert a + [e] == [e];
      if b == [] {
        assert ([e])[1..] == [];
      } else {
        SubsequenceExtend(a, b[1..], e);
      }
    } else {
      assert (a + [e])[0] == a[0] && (a + [e])[1..] == a[1..] + [e];
      if a[0] == b[0] && SubsequenceOf(a[1..], b[1..]) {
        SubsequenceExtend(a[1..], b[1..], e);
      } else {
        SubsequenceExtend(a, b[1..], e);
      }
    }
  }

  lemma {:induction false} SubsequenceReflexive<T>(a: seq<T>)
    ensures SubsequenceOf(a, a)
    decreases |a|
  {
    if a != [] {
      SubsequenceReflexive(a[1..]);
    }
  }
}
