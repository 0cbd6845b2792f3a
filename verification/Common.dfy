/** What several of the models share. */
module Common {

  /** A cache call can be refused with no effect, or take effect and lose its answer. */
  datatype Fault = Healthy | Refused | ReplyLost

  lemma SmallerSet<T>(a: set<T>, b: set<T>)
    requires a <= b
    ensures |a| <= |b|
  {
    assert b == a + (b - a);
  }

  lemma PrefixTrans<T>(a: seq<T>, b: seq<T>, c: seq<T>)
    ensures a <= b && b <= c ==> a <= c
  {
  }
}
