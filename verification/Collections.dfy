/** Sets as lists and lists as sets. */
module Collections {
  function SetOf<T>(s: seq<T>): set<T> {
    set x <- s
  }

  predicate NoDuplicates<K(==)>(s: seq<K>) {
    forall i, j :: 0 <= i < j < |s| ==> s[i] != s[j]
  }

  lemma SetOfSnoc<T>(s: seq<T>, x: T)
    ensures SetOf(s + [x]) == SetOf(s) + {x}
  {
  }

  method Listing<K(==)>(all: set<K>) returns (s: seq<K>)
    ensures NoDuplicates(s) && forall k :: k in s <==> k in all
  {
    s := [];
    var keys := all;
    while keys != {}
      invariant keys <= all && NoDuplicates(s)
      invariant forall k :: k in s <==> k in all && k !in keys
    {
      var key :| key in keys;
      keys := keys - {key};
      s := s + [key];
    }
  }
}
