/** utils/utils.go: the membership test used to validate config values. */
module Utils {

  /**
   * `Contains(s, e)`: scans `s` from the front and stops at the first element
   * equal to `e`; `at` is the index where it stopped.
   */
  method Contains(s: seq<string>, e: string) returns (found: bool, ghost at: int)
    ensures found <==> e in s
    ensures found ==> 0 <= at < |s| && s[at] == e && e !in s[..at]
  {
    var i := 0;
    while i < |s|
      invariant 0 <= i <= |s|
      invariant e !in s[..i]
    {
      if s[i] == e {
        return true, i;
      }
      assert s[..i + 1] == s[..i] + [s[i]];
      i := i + 1;
    }
    assert s[..i] == s;
    return false, -1;
  }
}
