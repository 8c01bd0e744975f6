/** Request fields as the request validator sees them. */
module Requests {

  /** A request field: `None` when it is absent, null, or (for an integer
      field) not an integer; `Some(v)` otherwise. */
  datatype Option<T> = None | Some(value: T)

  /** The characters PHP's `trim` strips by default: space, tab, newline,
      carriage return, NUL and vertical tab. */
  predicate Trimmable(c: char)
  {
    c == ' ' || c == '\t' || c == '\n' || c == '\r' || c == '\0' || c == '\U{000B}'
  }

  /** A string that `trim` turns into the empty string. */
  predicate Blank(s: string)
  {
    forall i :: 0 <= i < |s| ==> Trimmable(s[i])
  }

  /** PHP's `ltrim`: drops trimmable characters from the front. */
  function TrimStart(s: string): (r: string)
    ensures |r| <= |s| && r == s[|s| - |r|..]
    ensures r != "" ==> !Trimmable(r[0])
    ensures forall i :: 0 <= i < |s| - |r| ==> Trimmable(s[i])
  {
    if |s| > 0 && Trimmable(s[0]) then TrimStart(s[1..]) else s
  }

  /** PHP's `rtrim`: drops trimmable characters from the back. */
  function TrimEnd(s: string): (r: string)
    ensures |r| <= |s| && r == s[..|r|]
    ensures r != "" ==> !Trimmable(r[|r| - 1])
    ensures forall i :: |r| <= i < |s| ==> Trimmable(s[i])
  {
    if |s| > 0 && Trimmable(s[|s| - 1]) then TrimEnd(s[..|s| - 1]) else s
  }

  /** PHP's `trim`: drops trimmable characters from both ends. */
  function Trim(s: string): string
  {
    TrimEnd(TrimStart(s))
  }

  /** A non-empty string is blank iff its first character is trimmable and
      the rest is blank. */
  lemma BlankFront(s: string)
    requires |s| > 0
    ensures Blank(s) <==> Trimmable(s[0]) && Blank(s[1..])
  {
  }

  /** A non-empty string is blank iff its last character is trimmable and
      the rest is blank. */
  lemma BlankBack(s: string)
    requires |s| > 0
    ensures Blank(s) <==> Trimmable(s[|s| - 1]) && Blank(s[..|s| - 1])
  {
  }

  /** `ltrim` leaves nothing exactly when every character is trimmable. */
  lemma TrimStartEmpty(s: string)
    ensures TrimStart(s) == "" <==> Blank(s)
  {
  }

  /** `rtrim` leaves nothing exactly when every character is trimmable. */
  lemma TrimEndEmpty(s: string)
    ensures TrimEnd(s) == "" <==> Blank(s)
  {
  }

  /** `trim` leaves the empty string exactly when every character is
      trimmable. */
  lemma TrimEmpty(s: string)
    ensures Trim(s) == "" <==> Blank(s)
  {
  }

  /** The `required` rule on a string field: present, and not blank. */
  function Required(v: Option<string>): (ok: bool)
    ensures ok ==> v.Some? && v.value != ""
    ensures ok <== v.Some? && |v.value| > 0 && !Trimmable(v.value[0])
  {
    v.Some? && !Blank(v.value)
  }

  /** `required` passes exactly when the field is present and `trim` leaves
      something of it. */
  lemma RequiredMeansTrimmedNonEmpty(v: Option<string>)
    ensures Required(v) <==> v.Some? && Trim(v.value) != ""
  {
  }
}
