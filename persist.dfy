/**
 * The browser storage behind the preference stores: a map from key to the
 * JSON text last written. A store reads its key once at start-up (an absent
 * or empty item, or one that does not decode, gives the initial value) and
 * writes the JSON text of its value after every change.
 */
module Persist {

  import opened Wrappers

  /** `JSON.stringify` of a boolean. */
  function EncodeBool(b: bool): string {
    if b then "true" else "false"
  }

  /** `JSON.parse` of a stored boolean; any other text is None. */
  function DecodeBool(s: string): (r: Option<bool>)
    ensures r.Some? ==> EncodeBool(r.value) == s
  {
    if s == "true" then Some(true) else if s == "false" then Some(false) else None
  }

  lemma BoolRoundTrip(b: bool)
    ensures DecodeBool(EncodeBool(b)) == Some(b)
  {
  }

  /** Characters a JSON string literal carries without an escape. */
  predicate PlainText(s: string) {
    forall i :: 0 <= i < |s| ==> s[i] != '"' && s[i] != '\\' && s[i] >= ' '
  }

  /** `JSON.stringify` of a string that needs no escapes. */
  function EncodeString(s: string): (r: string)
    requires PlainText(s)
    ensures |r| == |s| + 2
  {
    "\"" + s + "\""
  }

  /** `JSON.parse` of a string literal without escapes. */
  function DecodeString(text: string): (r: Option<string>)
    ensures r.Some? ==> PlainText(r.value) && EncodeString(r.value) == text
  {
    if |text| >= 2 && text[0] == '"' && text[|text| - 1] == '"' && PlainText(text[1..|text| - 1]) then
      assert text == "\"" + text[1..|text| - 1] + "\"";
      Some(text[1..|text| - 1])
    else None
  }

  lemma StringRoundTrip(s: string)
    requires PlainText(s)
    ensures DecodeString(EncodeString(s)) == Some(s)
  {
    var t := EncodeString(s);
    assert t[1..|t| - 1] == s;
  }

  /**
   * `item ? JSON.parse(item) : initialValue`, with a failed parse giving the
   * initial value. `decode` reads only the JSON texts of the store's own type.
   */
  function Load<T>(storage: map<string, string>, key: string, decode: string -> Option<T>, initial: T): (v: T)
    ensures key !in storage || storage[key] == "" ==> v == initial
    ensures key in storage && storage[key] != "" && decode(storage[key]).Some? ==> v == decode(storage[key]).value
  {
    if key in storage && storage[key] != "" then decode(storage[key]).GetOr(initial) else initial
  }

  /** What a store writes under its key is what it reads back on the next start. */
  lemma LoadAfterStore<T>(storage: map<string, string>, key: string, decode: string -> Option<T>,
                          initial: T, text: string, v: T)
    requires text != "" && decode(text) == Some(v)
    ensures Load(storage[key := text], key, decode, initial) == v
  {
  }
}
