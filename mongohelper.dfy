/**
 * generateDatabaseName of src/utils/mongohelper.ts: the bot's name turned
 * into a MongoDB database name by lowercasing it, deleting every character
 * outside a-z, 0-9 and '_', and cutting the result to 63 characters.
 * Spaces are deleted like any other such character; none becomes '_'.
 */
module MongoHelper {

  /** The characters the database name keeps: the complement of the class
      [^a-z0-9_] that the name's replace removes. */
  predicate Allowed(c: char) {
    'a' <= c <= 'z' || '0' <= c <= '9' || c == '_'
  }

  /** Every character of s is allowed. */
  predicate AllAllowed(s: string) {
    forall i :: 0 <= i < |s| ==> Allowed(s[i])
  }

  /** String.prototype.toLowerCase on one character, exact on every
      character whose lowercase form contains an allowed character: the
      ASCII capitals, U+0130 (lowercased to "i" and U+0307) and U+212A
      (the Kelvin sign, lowercased to "k"). Every other character is kept:
      neither it nor its lowercase form contains an allowed character, so
      the filter deletes both alike. */
  function LowerChar(c: char): string {
    if 'A' <= c <= 'Z' then [(c as int + 32) as char]
    else if c == '\U{0130}' then ['i', '\U{0307}']
    else if c == '\U{212A}' then ['k']
    else [c]
  }

  /** String.prototype.toLowerCase, character by character. */
  function ToLowerCase(s: string): string {
    if s == [] then [] else LowerChar(s[0]) + ToLowerCase(s[1..])
  }

  /** replace(/[^a-z0-9_]/g, ""): the allowed characters of s, in order. */
  function KeepAllowed(s: string): (r: string)
    ensures |r| <= |s| && AllAllowed(r)
  {
    if s == [] then []
    else if Allowed(s[0]) then [s[0]] + KeepAllowed(s[1..])
    else KeepAllowed(s[1..])
  }

  /** The bot's name lowercased and filtered, before the cut. */
  function Sanitized(botName: string): string {
    KeepAllowed(ToLowerCase(botName))
  }

  /** generateDatabaseName. */
  function DatabaseName(botName: string): (r: string)
    ensures AllAllowed(r)
    ensures |r| <= 63
    ensures r <= Sanitized(botName)
    ensures |Sanitized(botName)| <= 63 ==> r == Sanitized(botName)
  {
    var name := Sanitized(botName);
    if |name| > 63 then name[..63] else name
  }

  /** Lowercasing works character by character. */
  lemma {:induction false} ToLowerCaseAppend(a: string, b: string)
    ensures ToLowerCase(a + b) == ToLowerCase(a) + ToLowerCase(b)
  {
    if a != [] {
      assert (a + b)[0] == a[0] && (a + b)[1..] == a[1..] + b;
      ToLowerCaseAppend(a[1..], b);
    } else {
      assert a + b == b;
    }
  }

  /** The filter works character by character. */
  lemma {:induction false} KeepAllowedAppend(a: string, b: string)
    ensures KeepAllowed(a + b) == KeepAllowed(a) + KeepAllowed(b)
  {
    if a != [] {
      assert (a + b)[0] == a[0] && (a + b)[1..] == a[1..] + b;
      KeepAllowedAppend(a[1..], b);
    } else {
      assert a + b == b;
    }
  }

  /** A name of allowed characters only is its own lowercase form and passes
      the filter whole. */
  lemma {:induction false} AllowedUnchanged(s: string)
    requires AllAllowed(s)
    ensures ToLowerCase(s) == s && KeepAllowed(s) == s
  {
    if s != [] {
      assert Allowed(s[0]);
      assert AllAllowed(s[1..]) by {
        forall i | 0 <= i < |s| - 1
          ensures Allowed(s[1..][i])
        {
          assert s[1..][i] == s[i + 1];
        }
      }
      AllowedUnchanged(s[1..]);
      assert s == [s[0]] + s[1..];
    }
  }

  /** A database name is its own database name. */
  lemma DatabaseNameIdempotent(botName: string)
    ensures DatabaseName(DatabaseName(botName)) == DatabaseName(botName)
  {
    AllowedUnchanged(DatabaseName(botName));
  }

  /** Lowercasing and filtering work character by character. */
  lemma SanitizedAppend(a: string, b: string)
    ensures Sanitized(a + b) == Sanitized(a) + Sanitized(b)
  {
    ToLowerCaseAppend(a, b);
    KeepAllowedAppend(ToLowerCase(a), ToLowerCase(b));
  }

  /** A space in the bot's name is deleted, not turned into '_'. */
  lemma SpaceDeleted(a: string, b: string)
    ensures DatabaseName(a + " " + b) == DatabaseName(a + b)
  {
    SanitizedAppend(a + " ", b);
    SanitizedAppend(a, " ");
    SanitizedAppend(a, b);
    assert " "[1..] == [];
    assert Sanitized(" ") == [];
  }

  /** The capitals A-Z become a-z and are kept. */
  lemma CapitalKept(c: char)
    requires 'A' <= c <= 'Z'
    ensures DatabaseName([c]) == [(c as int + 32) as char]
  {
    assert [c][1..] == [];
    assert ToLowerCase([c]) == [(c as int + 32) as char];
  }
}
