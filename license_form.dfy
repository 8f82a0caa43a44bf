/**
 * The license form: validates its inputs, builds the claims, signs their
 * canonical text and hands back the signed record.
 */
module LicenseForm {
  import opened Wrappers
  import opened PyStr
  import opened Dicts
  import opened CanonicalJson
  import opened Crypto
  import opened SigningAuthorities

  /** `is_not_empty`: false exactly for the empty string. */
  function IsNotEmpty(value: string): (r: bool)
    ensures r <==> |value| > 0
  {
    if value == "" then false else true
  }

  /** The outcome of validating one input: its failures, each with an optional description. */
  datatype ValidationResult = ValidationResult(failures: seq<Option<string>>) {
    predicate IsValid() {
      |failures| == 0
    }

    /** The descriptions that are present, in order. */
    function FailureDescriptions(): seq<string> {
      Present(failures)
    }
  }

  function Present(fs: seq<Option<string>>): (r: seq<string>)
    ensures |r| <= |fs|
    ensures forall d :: d in r ==> Some(d) in fs
  {
    if fs == [] then []
    else if fs[0].Some? then [fs[0].value] + Present(fs[1..])
    else Present(fs[1..])
  }

  /** Every description that is present is collected. */
  lemma {:induction false} PresentComplete(fs: seq<Option<string>>)
    ensures forall i :: 0 <= i < |fs| && fs[i].Some? ==> fs[i].value in Present(fs)
  {
    if fs != [] {
      PresentComplete(fs[1..]);
      assert forall i :: 1 <= i < |fs| ==> fs[i] == fs[1..][i - 1];
    }
  }

  /**
   * Collecting keeps the order of the failures: the descriptions of joined
   * failure lists are the joined descriptions, a present one is kept and a
   * missing one is skipped.
   */
  lemma {:induction false} PresentConcat(a: seq<Option<string>>, b: seq<Option<string>>)
    ensures Present(a + b) == Present(a) + Present(b)
  {
    if a != [] {
      assert (a + b)[1..] == a[1..] + b;
      PresentConcat(a[1..], b);
    } else {
      assert a + b == b;
    }
  }

  lemma PresentOne(f: Option<string>)
    ensures f.Some? ==> Present([f]) == [f.value]
    ensures f.None? ==> Present([f]) == []
  {
  }

  const HwidFailure: string := "Hardware ID cannot be empty"

  /**
   * What the hardware id input reports: it refuses the empty value with the
   * description above (it has a validator and does not accept empty input).
   */
  function HwidResult(value: string): (r: Option<ValidationResult>)
    ensures r.Some?
    ensures r.value.IsValid() <==> value != ""
    ensures !r.value.IsValid() ==> r.value.FailureDescriptions() == [HwidFailure]
  {
    Some(ValidationResult(if IsNotEmpty(value) then [] else [Some(HwidFailure)]))
  }

  /**
   * The validation results of every input on the form, in the order the form
   * lists them: customer, product, the date picker's own inputs (whose results
   * are given), features and hardware id. Customer, product and features have
   * no validators, so they report nothing, and their values do not matter.
   */
  function FormResults(dateResults: seq<Option<ValidationResult>>, hwid: string): seq<Option<ValidationResult>> {
    [None, None] + dateResults + [None, HwidResult(hwid)]
  }

  /** The results of the text inputs alone: the form without the date picker's inputs. */
  function TextInputResults(hwid: string): seq<Option<ValidationResult>> {
    FormResults([], hwid)
  }

  /** The form passes exactly when the date picker's inputs pass and the hardware id is not empty. */
  lemma FormValidIffHwid(dateResults: seq<Option<ValidationResult>>, hwid: string)
    ensures NoneFails(FormResults(dateResults, hwid)) <==> NoneFails(dateResults) && hwid != ""
  {
    var rs := FormResults(dateResults, hwid);
    var n := |dateResults|;
    assert |rs| == n + 4;
    assert forall j :: 0 <= j < n ==> rs[j + 2] == dateResults[j];
    assert rs[n + 3] == HwidResult(hwid);
    assert !Fails(rs[0]) && !Fails(rs[1]) && !Fails(rs[n + 2]);
    if NoneFails(dateResults) && hwid != "" {
      forall i | 0 <= i < |rs| ensures !Fails(rs[i]) {
        if 2 <= i < n + 2 {
          assert rs[i] == dateResults[i - 2];
        }
      }
    }
  }

  /** An input counts as failing when it reports a result that is not valid. */
  predicate Fails(r: Option<ValidationResult>) {
    r.Some? && !r.value.IsValid()
  }

  /** No input fails. */
  predicate NoneFails(rs: seq<Option<ValidationResult>>) {
    forall i :: 0 <= i < |rs| ==> !Fails(rs[i])
  }

  /** One `- description` line per description. */
  function DescriptionLines(ds: seq<string>): string {
    if ds == [] then "" else DescriptionLines(ds[..|ds| - 1]) + "- " + ds[|ds| - 1] + "\n"
  }

  /** The error text: the description lines of every failing input, in input order. */
  function ErrorLines(rs: seq<Option<ValidationResult>>): string {
    if rs == [] then ""
    else
      var last := rs[|rs| - 1];
      ErrorLines(rs[..|rs| - 1]) + (if Fails(last) then DescriptionLines(last.value.FailureDescriptions()) else "")
  }

  /**
   * The loop of `_validate`: `valid` is whether no input fails, `errors` the
   * lines describing every failure.
   */
  method CollectErrors(results: seq<Option<ValidationResult>>) returns (valid: bool, errors: string)
    ensures valid <==> NoneFails(results)
    ensures errors == ErrorLines(results)
  {
    valid := true;
    errors := "";
    var i := 0;
    while i < |results|
      invariant 0 <= i <= |results|
      invariant valid <==> NoneFails(results[..i])
      invariant errors == ErrorLines(results[..i])
    {
      var r := results[i];
      assert results[..i + 1][..i] == results[..i];
      if r.Some? && !r.value.IsValid() {
        valid := false;
        errors := AppendDescriptionLines(errors, r.value.FailureDescriptions());
      }
      i := i + 1;
    }
    assert results[..i] == results;
  }

  /** The inner loop of `_validate`: one `- description` line per description, after `errors`. */
  method AppendDescriptionLines(errors: string, descriptions: seq<string>) returns (r: string)
    ensures r == errors + DescriptionLines(descriptions)
  {
    r := errors;
    var k := 0;
    while k < |descriptions|
      invariant 0 <= k <= |descriptions|
      invariant r == errors + DescriptionLines(descriptions[..k])
    {
      assert descriptions[..k + 1][..k] == descriptions[..k];
      r := r + "- " + descriptions[k] + "\n";
      k := k + 1;
    }
    assert descriptions[..k] == descriptions;
  }

  /** Without failing inputs there is no error text. */
  lemma {:induction false} NoFailuresNoErrors(rs: seq<Option<ValidationResult>>)
    requires NoneFails(rs)
    ensures ErrorLines(rs) == ""
  {
    if rs != [] {
      NoFailuresNoErrors(rs[..|rs| - 1]);
    }
  }

  /**
   * The form's text inputs are valid exactly when the hardware id is not
   * empty; otherwise the error label reads the single hardware id line.
   */
  lemma TextInputsValidation(hwid: string)
    ensures var rs := TextInputResults(hwid);
      && (NoneFails(rs) <==> hwid != "")
      && (hwid != "" ==> ErrorLines(rs) == "")
      && (hwid == "" ==> ErrorLines(rs) == "- Hardware ID cannot be empty\n")
  {
    var rs := TextInputResults(hwid);
    var unvalidated: seq<Option<ValidationResult>> := [None, None, None];
    assert rs == unvalidated + [HwidResult(hwid)];
    assert Fails(rs[3]) <==> hwid == "";
    TextInputsErrors(hwid);
  }

  lemma TextInputsErrors(hwid: string)
    ensures var rs: seq<Option<ValidationResult>> := [None, None, None] + [HwidResult(hwid)];
      && (hwid != "" ==> ErrorLines(rs) == "")
      && (hwid == "" ==> ErrorLines(rs) == "- Hardware ID cannot be empty\n")
  {
    var unvalidated: seq<Option<ValidationResult>> := [None, None, None];
    NoFailuresNoErrors(unvalidated);
    ErrorLinesAppend(unvalidated, HwidResult(hwid));
    if hwid == "" {
      HwidLine();
    }
  }

  lemma HwidLine()
    ensures DescriptionLines([HwidFailure]) == "- Hardware ID cannot be empty\n"
  {
    assert [HwidFailure][..0] == [];
  }

  /** With only the hardware id empty, the error label reads its one line, without the newline. */
  lemma HwidLabel()
    ensures Strip(ErrorLines(TextInputResults(""))) == "- Hardware ID cannot be empty"
  {
    TextInputsValidation("");
    var line: string := "- Hardware ID cannot be empty\n";
    var shown: string := "- Hardware ID cannot be empty";
    assert StripLeft(line) == line;
    assert line[..|line| - 1] == shown;
    assert StripRight(line) == StripRight(shown);
  }

  lemma ErrorLinesAppend(rs: seq<Option<ValidationResult>>, r: Option<ValidationResult>)
    ensures ErrorLines(rs + [r]) ==
      ErrorLines(rs) + (if Fails(r) then DescriptionLines(r.value.FailureDescriptions()) else "")
  {
    assert (rs + [r])[..|rs|] == rs;
  }

  /** The values the form holds when signing; `expiresAt` is the picked date in ISO form, if any. */
  datatype FormFields = FormFields(customer: string, product: string, expiresAt: Option<string>,
                                   features: string, hwid: string)

  /** The claims of a form issued on `today` (already formatted as YYYY-MM-DD). */
  function ClaimsOf(f: FormFields, today: string): (c: Claims)
    ensures c.expiresAt == f.expiresAt.GetOr("")
    ensures c.issuedAt == today
  {
    Claims(f.customer, f.product, today, f.expiresAt.GetOr(""), f.features, f.hwid)
  }

  /** Neither `signature` nor `canonical` is a claim key. */
  lemma RecordKeysFree(c: Claims, sig: string)
    ensures "signature" !in Keys(ClaimDict(c))
    ensures "canonical" !in Keys(ClaimDict(c) + [("signature", sig)])
  {
    var claims := ClaimDict(c);
    forall i | 0 <= i < |claims| ensures claims[i].0 != "signature" && claims[i].0 != "canonical" {
      assert claims[i].0[0] != 's' || |claims[i].0| != 9;
    }
    KeysConcat(claims, [("signature", sig)]);
  }

  /**
   * The record `do_sign` returns: the claim items in construction order, then
   * `signature` (of the canonical text), then `canonical`.
   */
  function SignedRecord(s: Scheme, a: SigningAuthority, c: Claims): Dict<string> {
    ClaimDict(c) + [("signature", a.Sign(s, Canonical(c))), ("canonical", Canonical(c))]
  }

  /**
   * The signature covers exactly the canonical text of the record's six claim
   * items: neither the signature nor the canonical text is part of what is
   * signed, and the canonical text reads back as those six claims only.
   */
  lemma SignedRecordCoversClaims(s: Scheme, a: SigningAuthority, c: Claims)
    ensures var rec := SignedRecord(s, a, c);
      && DistinctKeys(rec)
      && rec[7].1 == Dumps(rec[..6])
      && rec[6].1 == a.Sign(s, rec[7].1)
      && ReadObject(rec[7].1) == Some(SortedClaimItems(c))
  {
    SignedRecordDistinct(s, a, c);
    SignedRecordParts(s, a, c);
    CanonicalReadsBack(c);
  }

  lemma SignedRecordParts(s: Scheme, a: SigningAuthority, c: Claims)
    ensures var rec := SignedRecord(s, a, c);
      && rec[..6] == ClaimDict(c) && rec[7].1 == Canonical(c) && rec[6].1 == a.Sign(s, Canonical(c))
  {
  }

  lemma SignedRecordDistinct(s: Scheme, a: SigningAuthority, c: Claims)
    ensures DistinctKeys(SignedRecord(s, a, c))
  {
    var sig := a.Sign(s, Canonical(c));
    var claims := ClaimDict(c);
    ClaimDictDistinct(c);
    RecordKeysFree(c, sig);
    AddSpec(claims, "signature", sig);
    AddSpec(claims + [("signature", sig)], "canonical", Canonical(c));
    AppendTwo(claims, ("signature", sig), ("canonical", Canonical(c)));
  }

  lemma AppendTwo<T>(d: seq<T>, x: T, y: T)
    ensures d + [x] + [y] == d + [x, y]
  {
  }

  /** The modal screen. */
  class LicenseFormModal {
    const scheme: Scheme
    /** The pane's authority when the form was opened. */
    const signer: Option<SigningAuthority>
    var errorsLabel: string
    /** The value the form was dismissed with; `None` while it is open. */
    var dismissed: Option<Dict<string>>

    constructor(pane: SigningAuthorityPane)
      ensures scheme == pane.scheme && signer == pane.authority
      ensures errorsLabel == "" && dismissed.None?
    {
      scheme := pane.scheme;
      signer := pane.authority;
      errorsLabel := "";
      dismissed := None;
    }

    /**
     * `do_sign`: without an authority it only warns; otherwise it dismisses
     * with the signed record of the form's claims.
     */
    method DoSign(f: FormFields, today: string) returns (warned: bool)
      modifies this`dismissed
      ensures warned <==> signer.None?
      ensures warned ==> dismissed == old(dismissed)
      ensures !warned ==> dismissed == Some(SignedRecord(scheme, signer.value, ClaimsOf(f, today)))
    {
      if signer.None? {
        return true;
      }
      warned := false;
      var expiresAt := if f.expiresAt.Some? then f.expiresAt.value else "";
      var c := Claims(f.customer, f.product, today, expiresAt, f.features, f.hwid);
      var data := ClaimDict(c);
      var canonical := Dumps(data);
      var signature := signer.value.Sign(scheme, canonical);
      RecordKeysFree(c, signature);
      data := Add(data, "signature", signature);
      data := Add(data, "canonical", canonical);
      assert c == ClaimsOf(f, today);
      AppendTwo(ClaimDict(c), ("signature", signature), ("canonical", canonical));
      dismissed := Some(data);
    }

    /**
     * `_validate`: shows the stripped error text of the form's inputs and
     * reports whether every input passed.
     */
    method Validate(dateResults: seq<Option<ValidationResult>>, f: FormFields) returns (valid: bool)
      modifies this`errorsLabel
      ensures valid <==> NoneFails(dateResults) && f.hwid != ""
      ensures errorsLabel == Strip(ErrorLines(FormResults(dateResults, f.hwid)))
    {
      var errors;
      valid, errors := CollectErrors(FormResults(dateResults, f.hwid));
      FormValidIffHwid(dateResults, f.hwid);
      errorsLabel := Strip(errors);
    }

    /** `_submit`: signs only when validation passes, so never with an empty hardware id. */
    method Submit(dateResults: seq<Option<ValidationResult>>, f: FormFields, today: string) returns (valid: bool, warned: bool)
      modifies this`errorsLabel, this`dismissed
      ensures valid <==> NoneFails(dateResults) && f.hwid != ""
      ensures errorsLabel == Strip(ErrorLines(FormResults(dateResults, f.hwid)))
      ensures !valid ==> !warned && dismissed == old(dismissed)
      ensures valid ==> (warned <==> signer.None?)
      ensures valid && signer.Some? ==> dismissed == Some(SignedRecord(scheme, signer.value, ClaimsOf(f, today)))
      ensures dismissed != old(dismissed) ==> f.hwid != ""
    {
      valid := Validate(dateResults, f);
      if valid {
        warned := DoSign(f, today);
      } else {
        warned := false;
      }
    }
  }
}
