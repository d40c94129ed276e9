/** internal/ingress/controller/store/objectref.go: which Ingresses refer to which objects. */
module ObjectRefs {

  /** The relation a map of sets stands for. */
  predicate Refers(v: map<string, set<string>>, ref: string, consumer: string) {
    ref in v && consumer in v[ref]
  }

  ghost predicate NoEmptySets(v: map<string, set<string>>) {
    forall ref :: ref in v ==> v[ref] != {}
  }

  /** Without empty sets the map is determined by its relation. */
  lemma RelationDeterminesMap(v: map<string, set<string>>, w: map<string, set<string>>)
    requires NoEmptySets(v) && NoEmptySets(w)
    requires forall ref, consumer :: Refers(v, ref, consumer) <==> Refers(w, ref, consumer)
    ensures v == w
  {
    forall ref ensures ref in v <==> ref in w {
      if ref in v {
        var c :| c in v[ref];
        assert Refers(v, ref, c);
      }
      if ref in w {
        var c :| c in w[ref];
        assert Refers(w, ref, c);
      }
    }
    forall ref | ref in v ensures v[ref] == w[ref] {
      forall c ensures c in v[ref] <==> c in w[ref] {
        assert Refers(v, ref, c) <==> Refers(w, ref, c);
      }
    }
  }

  /** The map with the consumer added to the set of r. */
  function WithConsumer(v: map<string, set<string>>, r: string, consumer: string): map<string, set<string>> {
    v[r := if r in v then v[r] + {consumer} else {consumer}]
  }

  /** The relation of v is that of u and the pairs of this consumer with refs. */
  ghost predicate Extends(u: map<string, set<string>>, v: map<string, set<string>>, consumer: string,
                          refs: seq<string>) {
    forall ref, c :: Refers(v, ref, c) <==> Refers(u, ref, c) || (c == consumer && ref in refs)
  }

  lemma ExtendsStep(u: map<string, set<string>>, v: map<string, set<string>>, consumer: string, refs: seq<string>,
                    r: string)
    requires Extends(u, v, consumer, refs)
    ensures Extends(u, WithConsumer(v, r, consumer), consumer, refs + [r])
  {
    var w := WithConsumer(v, r, consumer);
    forall ref, c ensures Refers(w, ref, c) <==> Refers(u, ref, c) || (c == consumer && ref in refs + [r]) {
      assert Refers(v, ref, c) <==> Refers(u, ref, c) || (c == consumer && ref in refs);
      if ref == r {
        assert Refers(w, ref, c) <==> Refers(v, ref, c) || c == consumer;
      } else {
        assert Refers(w, ref, c) <==> Refers(v, ref, c);
      }
    }
  }

  class ObjectRefMap {
    var v: map<string, set<string>>

    constructor ()
      ensures v == map[]
    {
      v := map[];
    }

    method Insert(consumer: string, refs: seq<string>)
      modifies this
      ensures Extends(old(v), v, consumer, refs)
      ensures NoEmptySets(old(v)) ==> NoEmptySets(v)
    {
      for i := 0 to |refs|
        invariant Extends(old(v), v, consumer, refs[..i])
        invariant NoEmptySets(old(v)) ==> NoEmptySets(v)
      {
        var r := refs[i];
        assert refs[..i + 1] == refs[..i] + [r];
        ExtendsStep(old(v), v, consumer, refs[..i], r);
        if r !in v {
          v := v[r := {consumer}];
          continue;
        }
        v := v[r := v[r] + {consumer}];
      }
      assert refs[..|refs|] == refs;
    }

    method Delete(consumer: string)
      modifies this
      ensures forall ref, c :: Refers(v, ref, c) <==> Refers(old(v), ref, c) && c != consumer
      ensures NoEmptySets(v)
    {
      var todo := v.Keys;
      while todo != {}
        invariant todo <= v.Keys
        invariant forall ref :: ref in todo ==> v[ref] == old(v)[ref]
        invariant forall ref, c :: ref !in todo ==> (Refers(v, ref, c) <==> Refers(old(v), ref, c) && c != consumer)
        invariant forall ref, c :: ref in todo ==> (Refers(v, ref, c) <==> Refers(old(v), ref, c))
        invariant forall ref :: ref in v && ref !in todo ==> v[ref] != {}
        decreases todo
      {
        var ref :| ref in todo;
        todo := todo - {ref};
        ghost var before := v;
        var left := v[ref] - {consumer};
        assert forall c :: c in left <==> Refers(before, ref, c) && c != consumer;
        v := v[ref := left];
        if left == {} {
          v := v - {ref};
        }
        assert forall r, c :: Refers(v, r, c) <==> Refers(before, r, c) && (r == ref ==> c != consumer);
      }
    }

    method Has(ref: string) returns (r: bool)
      requires NoEmptySets(v)
      ensures r <==> exists c :: Refers(v, ref, c)
    {
      r := ref in v;
      if r {
        var c :| c in v[ref];
        assert Refers(v, ref, c);
      }
    }

    method HasConsumer(consumer: string) returns (r: bool)
      ensures r <==> exists ref :: Refers(v, ref, consumer)
    {
      var refs := ReferencedBy(consumer);
      r := |refs| > 0;
      if r {
        assert refs[0] in refs;
      }
    }

    /** All consumers of ref; the source also sorts them. */
    method Reference(ref: string) returns (consumers: seq<string>)
      ensures forall c :: c in consumers <==> Refers(v, ref, c)
    {
      consumers := [];
      if ref !in v {
        return;
      }
      var todo := v[ref];
      while todo != {}
        invariant todo <= v[ref]
        invariant forall c :: c in consumers <==> c in v[ref] - todo
        decreases todo
      {
        var c :| c in todo;
        todo := todo - {c};
        consumers := consumers + [c];
      }
    }

    /** All objects the consumer refers to. */
    method ReferencedBy(consumer: string) returns (refs: seq<string>)
      ensures forall ref :: ref in refs <==> Refers(v, ref, consumer)
    {
      refs := [];
      var todo := v.Keys;
      while todo != {}
        invariant todo <= v.Keys
        invariant forall ref :: ref in refs <==> ref !in todo && Refers(v, ref, consumer)
        decreases todo
      {
        var ref :| ref in todo;
        todo := todo - {ref};
        if consumer in v[ref] {
          refs := refs + [ref];
        }
      }
    }
  }
}
