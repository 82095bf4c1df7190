/** Message bodies are built by concatenating many fragments; this module
    gives that concatenation and says where each fragment ends up. */
module TextJoin {

  function Concat(parts: seq<string>): (r: string)
    ensures parts != [] ==> |r| >= |parts[0]|
  {
    if parts == [] then "" else parts[0] + Concat(parts[1..])
  }

  /** `t` appears in `s` starting at index `i`. */
  predicate OccursAt(s: string, t: string, i: int) {
    0 <= i && i + |t| <= |s| && s[i..i + |t|] == t
  }

  ghost predicate Contains(s: string, t: string) {
    exists i :: OccursAt(s, t, i)
  }

  lemma {:induction false} ConcatSplit(parts: seq<string>, k: nat)
    requires k <= |parts|
    ensures Concat(parts) == Concat(parts[..k]) + Concat(parts[k..])
  {
    if k > 0 {
      ConcatSplit(parts[1..], k - 1);
      assert parts[1..][..k - 1] == parts[1..k];
      assert parts[1..][k - 1..] == parts[k..];
      assert parts[..k] == [parts[0]] + parts[1..k];
      assert parts[..k][1..] == parts[1..k];
    } else {
      assert parts[k..] == parts;
    }
  }

  /** Each fragment appears in the concatenation, right after the
      fragments before it. */
  lemma ConcatContains(parts: seq<string>, k: nat)
    requires k < |parts|
    ensures OccursAt(Concat(parts), parts[k], |Concat(parts[..k])|)
  {
    ConcatSplit(parts, k);
    assert parts[k..] == [parts[k]] + parts[k + 1..];
  }
}
