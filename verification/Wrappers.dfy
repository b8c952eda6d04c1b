/** Optional values, what a caller can learn about a single database write, and fresh
    numbers. */
module Wrappers {

  datatype Option<+T> = None | Some(value: T)

  /** A statement or commit either takes effect and says so, takes effect while
      its reply is lost, or has no effect. The last two look alike: an error. */
  datatype Write = Applied | ReplyLost | NotApplied {
    predicate TakesEffect() {
      !NotApplied?
    }
  }

  lemma {:induction false} Bound(ids: set<nat>) returns (b: nat)
    ensures forall i :: i in ids ==> i < b
  {
    if ids == {} {
      b := 0;
    } else {
      var i :| i in ids;
      var c := Bound(ids - {i});
      assert forall j :: j in ids ==> j == i || j in ids - {i};
      b := if i < c then c else i + 1;
    }
  }

  lemma Unused<T>(m: map<nat, T>) returns (id: nat)
    ensures id !in m
  {
    id := Bound(m.Keys);
  }
}
