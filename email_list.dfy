/**
 * The comma-separated address lists read from the environment by
 * lib/auth/admin.ts and lib/auth/allowlist.ts (both parse them the same way):
 * split on commas, trim and lower-case each entry, drop the empty ones.
 */
module EmailList {
  import opened JsStrings

  /** `item.trim().toLowerCase()` */
  function NormalizeEntry(item: string): (r: string)
    ensures |r| <= |item|
    ensures r == [] <==> AllWhitespace(item)
  {
    ToLowerKeepsShape(Trim(item));
    ToLower(Trim(item))
  }

  /** A normalised entry is trimmed and is its own lower case. */
  lemma NormalizedShape(item: string)
    ensures IsTrimmed(NormalizeEntry(item))
    ensures ToLower(NormalizeEntry(item)) == NormalizeEntry(item)
  {
    ToLowerKeepsShape(Trim(item));
    ToLowerIdempotent(Trim(item));
  }

  /** `.map(item => item.trim().toLowerCase()).filter(Boolean)` */
  function Entries(pieces: seq<string>): (list: seq<string>)
    ensures |list| <= |pieces|
    ensures forall x :: x in list <==> x != "" && exists p :: p in pieces && NormalizeEntry(p) == x
  {
    if pieces == [] then []
    else
      var e := NormalizeEntry(pieces[0]);
      var rest := Entries(pieces[1..]);
      assert forall p :: p in pieces <==> p == pieces[0] || p in pieces[1..];
      if e == "" then rest else [e] + rest
  }

  /** `raw.split(",").map(...).filter(Boolean)` */
  function ParseList(raw: string): (list: seq<string>)
    ensures forall x :: x in list <==> x != "" && exists p :: p in Split(raw, ',') && NormalizeEntry(p) == x
  {
    Entries(Split(raw, ','))
  }

  /** Every parsed entry is non-empty, trimmed and lower-case. */
  lemma ParsedEntriesNormalized(raw: string, x: string)
    requires x in ParseList(raw)
    ensures x != "" && IsTrimmed(x) && ToLower(x) == x
  {
    var p :| p in Split(raw, ',') && NormalizeEntry(p) == x;
    NormalizedShape(p);
  }

  /** The membership test both predicates end with: `list.includes(email.toLowerCase())`. */
  predicate Listed(email: string, raw: string) {
    ToLower(email) in ParseList(raw)
  }

  /** The e-mail is lower-cased but not trimmed: with surrounding whitespace it never matches. */
  lemma UntrimmedNeverListed(email: string, raw: string)
    requires !IsTrimmed(email)
    ensures !Listed(email, raw)
  {
    ToLowerKeepsShape(email);
    if Listed(email, raw) {
      ParsedEntriesNormalized(raw, ToLower(email));
    }
  }

  /** An unset or empty variable yields an empty list. */
  lemma EmptyRawEmptyList()
    ensures ParseList("") == []
  {
    assert Split("", ',') == [""];
    assert Trim("") == "";
  }

  /** Parsing a comma-joined list of normalised entries gives the entries back. */
  lemma {:induction false} ParseJoined(entries: seq<string>)
    requires |entries| >= 1
    requires forall i :: 0 <= i < |entries| ==>
               entries[i] != "" && ',' !in entries[i] && IsTrimmed(entries[i]) && ToLower(entries[i]) == entries[i]
    ensures ParseList(Join(entries, ',')) == entries
  {
    SplitJoin(entries, ',');
    EntriesOfNormalized(entries);
  }

  lemma {:induction false} EntriesOfNormalized(entries: seq<string>)
    requires forall i :: 0 <= i < |entries| ==>
               entries[i] != "" && IsTrimmed(entries[i]) && ToLower(entries[i]) == entries[i]
    ensures Entries(entries) == entries
  {
    if entries != [] {
      assert NormalizeEntry(entries[0]) == entries[0];
      EntriesOfNormalized(entries[1..]);
    }
  }
}
