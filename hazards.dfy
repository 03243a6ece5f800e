/** The hazard taxonomy and the moderation adapter `check_content_safety`.
    The moderation model's reply is an input: `Some(reply)` when the call
    returned, `None` when it raised. */
module Hazards {
  import opened Wrappers
  import opened Text

  datatype HazardRecord = HazardRecord(code: string, category: string)

  /** `hazard_categories`, in insertion order (the order the scan visits). */
  const Taxonomy: seq<HazardRecord> := [
    HazardRecord("S1", "Violent Crimes"),
    HazardRecord("S2", "Non-Violent Crimes"),
    HazardRecord("S3", "Sex-Related Crimes"),
    HazardRecord("S4", "Child Sexual Exploitation"),
    HazardRecord("S5", "Defamation"),
    HazardRecord("S6", "Specialized Advice"),
    HazardRecord("S7", "Privacy"),
    HazardRecord("S8", "Intellectual Property"),
    HazardRecord("S9", "Indiscriminate Weapons"),
    HazardRecord("S10", "Hate"),
    HazardRecord("S11", "Suicide & Self-Harm"),
    HazardRecord("S12", "Sexual Content"),
    HazardRecord("S13", "Elections"),
    HazardRecord("S14", "Code Interpreter Abuse")
  ]

  /** `code` is a key of `hazard_categories`. */
  predicate IsCode(code: string) {
    exists i :: 0 <= i < |Taxonomy| && Taxonomy[i].code == code
  }

  /** `hazard_categories[code]`, searching the records from index `i` on. */
  function LookupFrom(code: string, i: nat): (r: Option<string>)
    requires i <= |Taxonomy|
    decreases |Taxonomy| - i
  {
    if i == |Taxonomy| then None
    else if Taxonomy[i].code == code then Some(Taxonomy[i].category)
    else LookupFrom(code, i + 1)
  }

  /** A code recorded at or after `i` is found. */
  lemma LookupFound(code: string, i: nat)
    requires i <= |Taxonomy|
    requires exists j :: i <= j < |Taxonomy| && Taxonomy[j].code == code
    ensures LookupFrom(code, i).Some?
    decreases |Taxonomy| - i
  {
    if Taxonomy[i].code != code { LookupFound(code, i + 1); }
  }

  /** The display name of a code the adapter reported. */
  function Category(code: string): (c: string)
    requires IsCode(code)
    ensures HazardRecord(code, c) in Taxonomy
  {
    LookupFound(code, 0);
    LookupFromRecorded(code, 0);
    LookupFrom(code, 0).value
  }

  /** A successful lookup from `i` returns the category of a record at or
      after `i` that carries the code. */
  lemma {:induction false} LookupFromRecorded(code: string, i: nat)
    requires i <= |Taxonomy|
    ensures LookupFrom(code, i).Some? ==>
      exists j :: i <= j < |Taxonomy| && Taxonomy[j] == HazardRecord(code, LookupFrom(code, i).value)
    decreases |Taxonomy| - i
  {
    if i < |Taxonomy| && Taxonomy[i].code != code {
      LookupFromRecorded(code, i + 1);
    }
  }

  /** The category shown for a reported code is the one the table records for it. */
  lemma CategoryOfCode(code: string)
    requires IsCode(code)
    ensures HazardRecord(code, Category(code)) in Taxonomy
  {
    LookupFromRecorded(code, 0);
  }

  /** `code.lower() in lowered`. */
  predicate Flags(lowered: string, code: string) {
    Contains(lowered, Lower(code))
  }

  /** The index of the first record of `table` whose code occurs in `lowered`. */
  function FirstFlagged(table: seq<HazardRecord>, lowered: string): (r: Option<nat>)
    ensures r.Some? ==> r.value < |table|
  {
    if table == [] then None
    else if Flags(lowered, table[0].code) then Some(0)
    else
      match FirstFlagged(table[1..], lowered)
      case None => None
      case Some(k) => Some(k + 1)
  }

  /** `FirstFlagged` finds the first flagged record, and finds none only
      when no record is flagged. */
  lemma {:induction false} FirstFlaggedIsFirst(table: seq<HazardRecord>, lowered: string)
    ensures var r := FirstFlagged(table, lowered);
      && (r.Some? ==> Flags(lowered, table[r.value].code))
      && (r.Some? ==> forall j :: 0 <= j < r.value ==> !Flags(lowered, table[j].code))
      && (r.None? ==> forall j :: 0 <= j < |table| ==> !Flags(lowered, table[j].code))
  {
    if table != [] && !Flags(lowered, table[0].code) {
      FirstFlaggedIsFirst(table[1..], lowered);
      assert forall j :: 1 <= j < |table| ==> table[1..][j - 1] == table[j];
    }
  }

  /** Conversely, the record at `i` is the one found when it is flagged and
      no record before it is. */
  lemma {:induction false} FirstFlaggedAt(table: seq<HazardRecord>, lowered: string, i: nat)
    requires i < |table| && Flags(lowered, table[i].code)
    requires forall j :: 0 <= j < i ==> !Flags(lowered, table[j].code)
    ensures FirstFlagged(table, lowered) == Some(i)
  {
    if i > 0 {
      assert forall j :: 0 <= j < i - 1 ==> table[1..][j] == table[j + 1];
      FirstFlaggedAt(table[1..], lowered, i - 1);
    }
  }

  /** The adapter's `(is_safe, hazard_code)` pair. */
  datatype Verdict = Verdict(isSafe: bool, hazardCode: Option<string>)

  const Safe: Verdict := Verdict(true, None)

  /** `check_content_safety`, given the moderation model's reply (or `None`
      when the call raised). The reply is lower-cased and the taxonomy is
      scanned in order; the first code occurring as a substring is reported.
      A failed call fails open. */
  function CheckContentSafety(moderation: Option<string>): (v: Verdict)
    ensures v.isSafe <==> v.hazardCode.None?
    ensures moderation.None? ==> v == Safe
    ensures v.hazardCode.Some? ==> IsCode(v.hazardCode.value)
  {
    match moderation
    case None => Safe
    case Some(reply) =>
      match FirstFlagged(Taxonomy, Lower(reply))
      case None => Safe
      case Some(i) => Verdict(false, Some(Taxonomy[i].code))
  }

  /** The verdict on a reply is the first code, in table order, whose
      lower-case form occurs in the lower-cased reply; safe if there is none. */
  lemma ScanReportsFirstMatch(reply: string)
    ensures var v := CheckContentSafety(Some(reply)); var lowered := Lower(reply);
      && (v.hazardCode.Some? ==>
            exists i :: 0 <= i < |Taxonomy| && Taxonomy[i].code == v.hazardCode.value &&
              Flags(lowered, Taxonomy[i].code) &&
              forall j :: 0 <= j < i ==> !Flags(lowered, Taxonomy[j].code))
      && (v.isSafe <==> forall j :: 0 <= j < |Taxonomy| ==> !Flags(lowered, Taxonomy[j].code))
  {
    var lowered := Lower(reply);
    FirstFlaggedIsFirst(Taxonomy, lowered);
    match FirstFlagged(Taxonomy, lowered)
    case None =>
    case Some(i) =>
  }

  /** Every code of the form S1x shadows behind S1: whenever the reply
      contains "s10" .. "s14" it also contains "s1", which the scan tries
      first. So only the one-digit codes S1 .. S9 can ever be reported. */
  lemma TwoDigitCodesNeverReported(moderation: Option<string>)
    ensures CheckContentSafety(moderation).hazardCode.Some? ==>
      |CheckContentSafety(moderation).hazardCode.value| == 2
  {
    if moderation.Some? {
      ScanReportsFirstMatch(moderation.value);
      ShadowedByS1(Lower(moderation.value));
    }
  }

  /** The adapter never reports Hate, Suicide & Self-Harm, Sexual Content,
      Elections or Code Interpreter Abuse. */
  lemma LongCodesNeverReported(moderation: Option<string>)
    ensures CheckContentSafety(moderation).hazardCode.Some? ==>
      CheckContentSafety(moderation).hazardCode.value !in ["S10", "S11", "S12", "S13", "S14"]
  {
    TwoDigitCodesNeverReported(moderation);
    var v := CheckContentSafety(moderation);
    if v.hazardCode.Some? {
      var c := v.hazardCode.value;
      assert c != "S10" && c != "S11" && c != "S12" && c != "S13" && c != "S14";
    }
  }

  /** A reply that mentions any of S10 .. S14 also mentions S1. */
  lemma ShadowedByS1(lowered: string)
    ensures forall k :: 9 <= k < |Taxonomy| && Flags(lowered, Taxonomy[k].code) ==>
      Flags(lowered, Taxonomy[0].code)
  {
    assert Lower(Taxonomy[0].code) == "s1";
    forall k | 9 <= k < |Taxonomy| && Flags(lowered, Taxonomy[k].code)
      ensures Flags(lowered, Taxonomy[0].code)
    {
      var needle := Lower(Taxonomy[k].code);
      assert needle == "s1" + needle[2..];
      ContainsPrefix(lowered, "s1", needle[2..]);
    }
  }

  /** The shadowing on one reply: Llama Guard's verdict for category S12
      ("unsafe\nS12") is reported as S1, Violent Crimes. */
  lemma SexualContentReplyReportedAsViolentCrimes()
    ensures CheckContentSafety(Some("unsafe\nS12")) == Verdict(false, Some("S1"))
    ensures Category("S1") == "Violent Crimes"
  {
    var lowered := Lower("unsafe\nS12");
    assert lowered == "unsafe\ns12";
    assert "s1" <= lowered[7..];
    assert Lower(Taxonomy[0].code) == "s1";
    assert Flags(lowered, Taxonomy[0].code);
    assert Taxonomy[0].code == "S1";
  }

  /** Matching ignores case: an upper-case "S4" in the reply is reported as S4. */
  lemma UpperCaseCodeReported()
    ensures CheckContentSafety(Some("UNSAFE\nS4")) == Verdict(false, Some("S4"))
  {
    var lowered := Lower("UNSAFE\nS4");
    assert lowered == "unsafe\ns4";
    forall j | 0 <= j < 3
      ensures !Flags(lowered, Taxonomy[j].code)
    {
      var needle := Lower(Taxonomy[j].code);
      assert needle == ['s', "123"[j]];
      PairAbsent(lowered, needle);
    }
    assert Lower(Taxonomy[3].code) == "s4";
    assert "s4" <= lowered[7..];
    FirstFlaggedAt(Taxonomy, lowered, 3);
  }

  /** A two-character string occurs only where its two characters stand side by side. */
  lemma PairAbsent(hay: string, needle: string)
    requires |needle| == 2
    requires forall i :: 0 <= i < |hay| - 1 ==> !(hay[i] == needle[0] && hay[i + 1] == needle[1])
    ensures !Contains(hay, needle)
  {
    forall i | 0 <= i <= |hay|
      ensures !(needle <= hay[i..])
    {
      if i < |hay| - 1 {
        assert hay[i..][0] == hay[i] && hay[i..][1] == hay[i + 1];
      }
    }
  }
}
