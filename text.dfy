/** String operations the worker borrows from the host language. */
module Text {

  /** `sub` occurs in `s` starting at index `i`. */
  predicate OccursAt(s: string, sub: string, i: int) {
    0 <= i && i + |sub| <= |s| && s[i..i + |sub|] == sub
  }

  /** Substring containment, the `sub in s` test on strings: true exactly when
      `sub` occurs somewhere in `s`, not only at its start. */
  function Contains(s: string, sub: string): (r: bool)
    ensures r <==> exists i :: OccursAt(s, sub, i)
    decreases |s|
  {
    if |sub| > |s| then
      assert forall i :: !OccursAt(s, sub, i);
      false
    else if s[..|sub|] == sub then
      assert OccursAt(s, sub, 0);
      true
    else
      var r := Contains(s[1..], sub);
      assert forall i :: OccursAt(s[1..], sub, i) ==> OccursAt(s, sub, i + 1) by {
        forall i | OccursAt(s[1..], sub, i) ensures OccursAt(s, sub, i + 1) {
          assert s[i + 1..i + 1 + |sub|] == s[1..][i..i + |sub|];
        }
      }
      assert forall i :: OccursAt(s, sub, i) ==> OccursAt(s[1..], sub, i - 1) by {
        forall i | OccursAt(s, sub, i) ensures OccursAt(s[1..], sub, i - 1) {
          assert i != 0;
          assert s[1..][i - 1..i - 1 + |sub|] == s[i..i + |sub|];
        }
      }
      r
  }

  /** The last component of a slash-separated path, as POSIX `basename` in
      Python's `os.path` computes it: everything after the last '/'. */
  function Basename(p: string): (r: string)
    ensures '/' !in r
    ensures |r| <= |p| && r == p[|p| - |r|..]
    ensures |r| < |p| ==> p[|p| - |r| - 1] == '/'
    decreases |p|
  {
    if |p| == 0 || p[|p| - 1] == '/' then ""
    else Basename(p[..|p| - 1]) + [p[|p| - 1]]
  }

  /** Appending a slash-free name to a path extends its last component. */
  lemma {:induction false} BasenameAppend(p: string, name: string)
    requires '/' !in name
    ensures Basename(p + name) == Basename(p) + name
    decreases |name|
  {
    if name != [] {
      var init := name[..|name| - 1];
      assert p + name == (p + init) + [name[|name| - 1]];
      assert (p + name)[..|p + name| - 1] == p + init;
      BasenameAppend(p, init);
      assert init + [name[|name| - 1]] == name;
    } else {
      assert p + name == p;
    }
  }
}
