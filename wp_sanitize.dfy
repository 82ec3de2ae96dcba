/** The two WordPress sanitisers the plugin passes submitted keys and values
    through, as simple stated filters. */
module WpSanitize {
  import opened PhpStrings

  /** strtolower() on one character: ASCII upper case only. */
  function LowerAscii(c: char): char {
    if 'A' <= c <= 'Z' then (c as int + 32) as char else c
  }

  /** The characters sanitize_key() keeps: a-z, 0-9, '_' and '-'. */
  predicate IsKeyChar(c: char) {
    'a' <= c <= 'z' || '0' <= c <= '9' || c == '_' || c == '-'
  }

  /** sanitize_key(): lower-case the key, then drop every character outside a-z, 0-9, '_' and '-'. */
  function SanitizeKey(k: string): (r: string)
    ensures |r| <= |k|
    ensures forall i :: 0 <= i < |r| ==> IsKeyChar(r[i])
  {
    if k == [] then []
    else
      var c := LowerAscii(k[0]);
      (if IsKeyChar(c) then [c] else []) + SanitizeKey(k[1..])
  }

  /** A key made only of kept characters passes through sanitize_key() unchanged. */
  lemma {:induction false} SanitizeKeyOfKeyChars(k: string)
    requires forall i :: 0 <= i < |k| ==> IsKeyChar(k[i])
    ensures SanitizeKey(k) == k
  {
    if k != [] {
      SanitizeKeyOfKeyChars(k[1..]);
      assert k == [k[0]] + k[1..];
    }
  }

  /** sanitize_key() is idempotent. */
  lemma SanitizeKeyIdempotent(k: string)
    ensures SanitizeKey(SanitizeKey(k)) == SanitizeKey(k)
  {
    SanitizeKeyOfKeyChars(SanitizeKey(k));
  }

  /** sanitize_text_field(), reduced to its final trim(). */
  function SanitizeTextField(s: string): string {
    Trim(s)
  }
}
