/** Lists of names as the sets they hold, for worklists and for loops over sets. */
module Worklist {

  function Elements(list: seq<string>): set<string> {
    if list == [] then {} else Elements(list[..|list| - 1]) + {list[|list| - 1]}
  }

  lemma {:induction false} ElementsOf(list: seq<string>, more: seq<string>)
    ensures Elements(list + more) == Elements(list) + Elements(more)
  {
    if more == [] {
      assert list + more == list;
    } else {
      var front := more[..|more| - 1];
      ElementsOf(list, front);
      assert (list + more)[..|list + more| - 1] == list + front;
    }
  }

  lemma {:induction false} ElementsIff(list: seq<string>, x: string)
    ensures x in Elements(list) <==> x in list
  {
    if list != [] {
      ElementsIff(list[..|list| - 1], x);
      assert list == list[..|list| - 1] + [list[|list| - 1]];
    }
  }

  /** The members of a set in some order. */
  method Listed(s: set<string>) returns (list: seq<string>)
    ensures Elements(list) == s
    ensures forall x :: x in list <==> x in s
  {
    list := [];
    var remaining := s;
    while remaining != {}
      invariant remaining <= s && Elements(list) == s - remaining
      decreases |remaining|
    {
      var x :| x in remaining;
      ElementsOf(list, [x]);
      list := list + [x];
      remaining := remaining - {x};
    }
    forall x ensures x in list <==> x in s {
      ElementsIff(list, x);
    }
  }

  /** Visiting one more of finitely many names leaves fewer to visit. */
  lemma FewerLeft(all: set<string>, seen: set<string>, x: string)
    requires x in all && x !in seen
    ensures |all - (seen + {x})| < |all - seen|
  {
    assert all - (seen + {x}) == (all - seen) - {x};
  }
}
