/** Column names: what is safe to put in DDL, and what the hoglake server accepts. */
module Names {

  predicate IsLetter(c: char) { 'a' <= c <= 'z' || 'A' <= c <= 'Z' || c == '_' }
  predicate IsDigit(c: char) { '0' <= c <= '9' }

  predicate IsIdentifier(s: string) {
    s != "" && IsLetter(s[0]) && forall i :: 0 <= i < |s| ==> IsLetter(s[i]) || IsDigit(s[i])
  }

  /** The regex `^[a-zA-Z_][a-zA-Z0-9_]*$`, whose `$` also matches before one final newline. */
  predicate SafeIdentifier(s: string) {
    IsIdentifier(s) || (|s| > 0 && s[|s| - 1] == '\n' && IsIdentifier(s[..|s| - 1]))
  }

  function LowerChar(c: char): char {
    if 'A' <= c <= 'Z' then 'a' + (c - 'A') else c
  }

  function Lower(s: string): (t: string)
    ensures |t| == |s|
  {
    seq(|s|, i requires 0 <= i < |s| => LowerChar(s[i]))
  }

  predicate HogReserved(name: string) {
    |name| >= 4 && LowerChar(name[0]) == '_' && LowerChar(name[1]) == 'h'
    && LowerChar(name[2]) == 'o' && LowerChar(name[3]) == 'g'
  }

  /** What `_drop_unwritable_columns` keeps. */
  predicate Writable(name: string) {
    !HogReserved(name) && SafeIdentifier(name) && |name| <= 128
  }

  /** Any name of up to 128 letters, digits and underscores is kept that starts with no digit and, in whatever case,
      not with `_hog`. */
  lemma OrdinaryNamesAreWritable(name: string)
    requires 0 < |name| <= 128 && !('0' <= name[0] <= '9')
    requires forall c :: c in name ==> 'a' <= c <= 'z' || 'A' <= c <= 'Z' || '0' <= c <= '9' || c == '_'
    ensures Writable(name) <==> |name| < 4 || Lower(name[..4]) != "_hog"
  {
    assert forall i :: 0 <= i < |name| ==> name[i] in name;
    if |name| >= 4 {
      var l := Lower(name[..4]);
      assert l[0] == LowerChar(name[0]) && l[1] == LowerChar(name[1]);
      assert l[2] == LowerChar(name[2]) && l[3] == LowerChar(name[3]);
      assert l == "_hog" <==> l[0] == '_' && l[1] == 'h' && l[2] == 'o' && l[3] == 'g';
    }
  }
}
