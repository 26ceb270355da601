/** Small shared vocabulary: optional values, results, bytes and the fixed-width integers of the wire. */
module Base {

  datatype Option<+T> = None | Some(value: T)

  datatype Result<+T, +E> = Ok(value: T) | Err(error: E)

  type byte = n: int | 0 <= n < 0x100
  type u16 = n: int | 0 <= n < 0x1_0000
  type u32 = n: int | 0 <= n < 0x1_0000_0000
  type u64 = n: int | 0 <= n < 0x1_0000_0000_0000_0000

  type Bytes = seq<byte>

  /** What a map of accumulated bytes holds for a key; an absent key has accumulated nothing. */
  function Accumulated<K>(m: map<K, Bytes>, k: K): Bytes {
    if k in m then m[k] else []
  }

  lemma Associative<T>(a: seq<T>, b: seq<T>, c: seq<T>)
    ensures (a + b) + c == a + (b + c)
  {
  }

  /** Elements of a sequence are pairwise different. */
  predicate NoDuplicates<T(==)>(s: seq<T>) {
    forall i, j :: 0 <= i < j < |s| ==> s[i] != s[j]
  }

  /** `order` lists each element of `elements` exactly once (one iteration order of a hash table). */
  predicate Enumerates<T(==)>(order: seq<T>, elements: set<T>) {
    && NoDuplicates(order)
    && (forall x | x in order :: x in elements)
    && (forall x | x in elements :: x in order)
  }

  lemma NothingEnumerated<T>()
    ensures Enumerates<T>([], {})
  {
  }

  lemma EnumeratesNext<T>(order: seq<T>, elements: set<T>, x: T)
    requires Enumerates(order, elements) && x !in elements
    ensures Enumerates(order + [x], elements + {x})
  {
  }

  lemma {:induction false} Enumeration<T>(elements: set<T>) returns (order: seq<T>)
    ensures Enumerates(order, elements)
  {
    if elements == {} {
      order := [];
    } else {
      var x :| x in elements;
      order := Enumeration(elements - {x});
      EnumeratesNext(order, elements - {x}, x);
      order := order + [x];
      assert elements - {x} + {x} == elements;
    }
  }

  lemma {:induction false} EnumerationLength<T>(order: seq<T>, elements: set<T>)
    requires Enumerates(order, elements)
    ensures |order| == |elements|
  {
    if order != [] {
      var n := |order| - 1;
      assert forall x | x in order[..n] :: x in order && x != order[n];
      assert forall x | x in elements - {order[n]} :: x in order[..n];
      EnumerationLength(order[..n], elements - {order[n]});
    } else {
      assert elements == {};
    }
  }
}
