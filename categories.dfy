/**
 * The user's categories as the settings panel and the transaction form load them: rows of
 * a `categories` table, each either an income ('entrada') or an expense ('saida') category,
 * kept in creation order. Both screens split the list by type with `filter`.
 */
module Categories {

  datatype Kind = Entrada | Saida

  /** A category row; an absent colour is the empty string. */
  datatype Category = Category(id: string, name: string, kind: Kind, color: string)

  /** `categories.filter(c => c.type === kind)`. */
  function OfKind(cs: seq<Category>, kind: Kind): (r: seq<Category>)
    ensures |r| <= |cs|
    ensures forall c :: c in r <==> c in cs && c.kind == kind
  {
    if cs == [] then []
    else (if cs[0].kind == kind then [cs[0]] else []) + OfKind(cs[1..], kind)
  }

  /** Filtering distributes over concatenation, so it keeps the loaded order. */
  lemma {:induction false} OfKindAppend(a: seq<Category>, b: seq<Category>, kind: Kind)
    ensures OfKind(a + b, kind) == OfKind(a, kind) + OfKind(b, kind)
  {
    if a == [] {
      assert a + b == b;
    } else {
      assert (a + b)[1..] == a[1..] + b;
      OfKindAppend(a[1..], b, kind);
    }
  }

  /** Every category falls in exactly one of the two lists: together they are a split of the whole. */
  lemma {:induction false} OfKindPartition(cs: seq<Category>)
    ensures multiset(OfKind(cs, Entrada)) + multiset(OfKind(cs, Saida)) == multiset(cs)
    ensures |OfKind(cs, Entrada)| + |OfKind(cs, Saida)| == |cs|
  {
    if cs != [] {
      OfKindPartition(cs[1..]);
      assert cs == [cs[0]] + cs[1..];
    }
  }
}
