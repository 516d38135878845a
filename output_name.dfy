/**
 * Naming of the export file: `chatId.replace(/[^a-zA-Z0-9]/g, '_')`
 * followed by `.json`, placed in the fixed output directory.
 */
module OutputName {

  /** The character class `[a-zA-Z0-9]`. */
  predicate IsAsciiAlphanumeric(c: char)
  {
    ('a' <= c <= 'z') || ('A' <= c <= 'Z') || ('0' <= c <= '9')
  }

  /** A string made only of `[a-zA-Z0-9_]`. */
  predicate IsSanitized(s: string)
  {
    forall i :: 0 <= i < |s| ==> IsAsciiAlphanumeric(s[i]) || s[i] == '_'
  }

  /** One regular-expression replacement step. */
  function SanitizeChar(c: char): char
  {
    if IsAsciiAlphanumeric(c) then c else '_'
  }

  /**
   * Every character outside `[a-zA-Z0-9]` becomes `_`, one for one: the
   * result has the input's length, and each position keeps its character
   * exactly when that character is ASCII alphanumeric.
   */
  function Sanitize(chatId: string): (r: string)
    ensures |r| == |chatId|
    ensures forall i :: 0 <= i < |chatId| ==>
      r[i] == (if IsAsciiAlphanumeric(chatId[i]) then chatId[i] else '_')
    decreases |chatId|
  {
    if chatId == [] then []
    else [SanitizeChar(chatId[0])] + Sanitize(chatId[1..])
  }

  /** The name of the export file, inside the output directory. */
  function OutputFileName(chatId: string): (name: string)
    ensures |name| == |chatId| + 5
    ensures forall i :: 0 <= i < |chatId| ==>
      name[i] == (if IsAsciiAlphanumeric(chatId[i]) then chatId[i] else '_')
    ensures name[|chatId|..] == ".json"
    ensures '/' !in name
  {
    Sanitize(chatId) + ".json"
  }

  /** A sanitised string is left as it is by sanitisation, and only such a string is. */
  lemma SanitizeFixpoint(s: string)
    ensures Sanitize(s) == s <==> IsSanitized(s)
  {
    if IsSanitized(s) {
      assert forall i :: 0 <= i < |s| ==> Sanitize(s)[i] == s[i];
    } else {
      var i :| 0 <= i < |s| && !IsAsciiAlphanumeric(s[i]) && s[i] != '_';
      assert Sanitize(s)[i] != s[i];
    }
  }

  /** Sanitisation always yields a sanitised string, so applying it twice changes nothing. */
  lemma SanitizeIdempotent(s: string)
    ensures IsSanitized(Sanitize(s))
    ensures Sanitize(Sanitize(s)) == Sanitize(s)
  {
    SanitizeFixpoint(Sanitize(s));
  }

  /** The usual individual-chat id. */
  lemma ExampleIndividualChat(chatId: string)
    requires chatId == "123456789@c.us"
    ensures OutputFileName(chatId) == "123456789_c_us.json"
  {
    var r := Sanitize(chatId);
    assert forall i :: 0 <= i < |chatId| ==> r[i] == "123456789_c_us"[i];
    var name := OutputFileName(chatId);
    assert forall i :: 0 <= i < |name| ==> name[i] == "123456789_c_us.json"[i];
  }

  /** Distinct chat ids can share one export file (the later export overwrites). */
  lemma ExampleCollision(a: string, b: string)
    requires a == "a@b" && b == "a.b"
    ensures a != b
    ensures OutputFileName(a) == OutputFileName(b) == "a_b.json"
  {
    assert a[1] != b[1];
    var na, nb := OutputFileName(a), OutputFileName(b);
    assert forall i :: 0 <= i < |na| ==> na[i] == "a_b.json"[i];
    assert forall i :: 0 <= i < |nb| ==> nb[i] == "a_b.json"[i];
  }
}
