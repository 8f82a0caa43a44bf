# license_manager in Dafny

A model of the core of `license_manager`, a terminal application that issues
signed software licenses. It covers four pieces:

- the **signing authority**: an Ed25519 signing key that can be generated,
  loaded from key text or a key file, exported, and used to sign text, and
  the pane that generates, opens and saves it;
- the **license form**: it validates its inputs, builds the six claims,
  serialises them canonically (`json.dumps` with sorted keys and no
  whitespace), signs that text and hands back the signed record;
- the **license store**: `LicenseDB`, a connection to one SQLite file among
  the files on disk, each holding a `licenses` table with an AUTOINCREMENT id.
  The licenses pane mirrors the store's rows in its table view and can add,
  delete and export licenses and switch to another database file;
- **`AppContext`**: a persisted key-value context written to `context.json`
  through a temporary file after every change.

Modules, one per concern:

| file | module | models |
|---|---|---|
| `wrappers.dfy` | `Wrappers` | `Option`, `Result`, Python truthiness of an optional string |
| `pystr.dfy` | `PyStr` | `str.strip`, `lstrip`, `rstrip`, `endswith` |
| `dicts.dfy` | `Dicts` | insertion-ordered `dict` with `get`, `d[k] = v` and `del d[k]` |
| `json_text.dfy` | `JsonText` | CPython's JSON string encoder (`ensure_ascii`), with a decoder for it |
| `canonical_json.dfy` | `CanonicalJson` | `json.dumps(d, sort_keys=True, separators=(",", ":"))`, a reader for its output, and the canonical text of the claims |
| `app_context.dfy` | `AppContexts` | `utils/app_context.py` |
| `signing_authority.dfy` | `Crypto`, `SigningAuthorities` | `widgets/signing_authority.py` |
| `license_form.dfy` | `LicenseForm` | `modals/license_form.py` |
| `license_store.dfy` | `LicenseStore` | the SQLite `licenses` table: rows, ids, insert, delete |
| `license_db.dfy` | `LicenseDatabase` | `LicenseDB` in `widgets/license_table.py` |
| `license_table.dfy` | `LicenseTable` | `LicenseTablePane` in `widgets/license_table.py` |

How the environment enters the model:

- **Files on disk are maps.** Database files map a path to a `Table`. The
  configuration directory maps a name to its content. Key files map a path to
  their text.
- **The outside world becomes parameters.** This covers:
  - the file a picker returns (`chosen`, `None` when cancelled);
  - the cursor row;
  - the name `mkstemp` picks (`tmp`) and whether writing the state file succeeds (`writeOk`);
  - the files `os.remove` cannot remove (`undeletable`);
  - the key `SigningKey.generate()` draws (`generated`);
  - today's date, already formatted;
  - the validation results of the form's inputs.
- **Ed25519 and URL-safe base64 are uninterpreted.** A `Crypto.Scheme` is any
  choice of key encodings, key decoding and signing function. The one fact
  taken about it is `EncodingRoundTrips`: an exported key decodes back to the
  same key, and its text has no surrounding whitespace.
- **Exceptions become results.** Each method returns a `Result`, a `bool` or
  an outcome datatype that says which error path was taken. In the
  `ensures`, every modelled error path leaves the state as the source leaves
  it. The error paths that are not modelled are listed under "Left out".

Behaviour worth noting:

- Switching databases is not atomic. `_connect` closes the old connection
  before it opens the new one, and `change_db` sets the new path first. A
  switch that fails therefore does not keep the old store usable. The failure
  itself is not modelled (see below). A successful switch is modelled as
  written: `LicenseDB.Connect` drops the old connection before it opens the
  new file.
- Export writes every stored column except `id` and `canonical`, so the
  exported file does not carry the signed text. This matches
  `license_table.py:79-80`, and `LicenseStore.ExportKeepsColumns` states it.
- When no signing authority is loaded, `do_sign` warns and returns without
  signing. It raises nothing. `LicenseFormModal.DoSign` reports this as `warned`.
- `__setitem__` and `set` of `AppContext` have the same body. Both are
  modelled by `AppContext.Set`.

## Model

| member | source | states |
|---|---|---|
| PyStr.Strip | src/license_manager/modals/license_form.py:108 | `str.strip()`: `lstrip` then `rstrip`; what it keeps and drops is stated by `StripIsTrimmedSlice`, `StripBounds`, `StripLeftIsSuffix` and `StripRightIsPrefix` |
| PyStr.StripLeftIsSuffix | src/license_manager/widgets/signing_authority.py:20 | `lstrip` keeps a suffix of its argument, and that suffix does not start with a space |
| PyStr.StripRightIsPrefix | src/license_manager/widgets/signing_authority.py:20 | `rstrip` keeps a prefix of its argument, and that prefix does not end with a space |
| PyStr.StripLeftDropsSpaces | src/license_manager/widgets/signing_authority.py:20 | every character `lstrip` drops is whitespace |
| PyStr.StripRightDropsSpaces | src/license_manager/widgets/signing_authority.py:20 | every character `rstrip` drops is whitespace |
| PyStr.StripBounds | src/license_manager/modals/license_form.py:108 | `strip()` returns the slice `s[i..j]`, and every character outside it is whitespace |
| PyStr.StripIsTrimmedSlice | src/license_manager/modals/license_form.py:108 | `strip()` returns a slice that drops only whitespace and has no whitespace at either end |
| Dicts.Get | src/license_manager/widgets/license_table.py:177-184 | `d.get(k)` finds a value exactly when `k` is a key, and the item it returns is in the dict |
| Dicts.GetAt | src/license_manager/widgets/license_table.py:125-131 | in a dict with distinct keys, looking up an item's key yields that item's value |
| Dicts.AddSpec | src/license_manager/modals/license_form.py:41-42 | storing a new key adds exactly that key, maps it to its value, leaves every other key's value alone and keeps keys distinct |
| Dicts.AppendGet | src/license_manager/modals/license_form.py:41-42 | appending an item changes the lookup of its key only |
| Dicts.KeysConcat | src/license_manager/modals/license_form.py:41-42 | the keys of two joined item sequences are the union of their keys |
| Dicts.RemoveInPlace | src/license_manager/widgets/license_table.py:79-80 | `del d[k]` cuts the item out at its position: the items before and after it stay, in order |
| Dicts.Remove | src/license_manager/widgets/license_table.py:79-80 | `del d[k]` removes exactly the key `k`, keeps the keys distinct and keeps every other key's value |
| JsonText.EscapeChar | src/license_manager/modals/license_form.py:39 | the `ensure_ascii` escape of one character: never empty and never a bare `"`; `UnitRoundTrip` states that it decodes back to the character, and `EscapePlain` that printable ASCII stays as it is |
| JsonText.Escape | src/license_manager/modals/license_form.py:39 | the body of a JSON string literal, character by character; `StringRoundTrip` states that it decodes back to the string |
| JsonText.Hex4RoundTrip | src/license_manager/modals/license_form.py:39 | the four hex digits of a `\u` escape read back as the code unit they encode |
| JsonText.EscapePlain | src/license_manager/modals/license_form.py:39 | printable ASCII other than `"` and `\` is written unchanged |
| JsonText.UnitRoundTrip | src/license_manager/modals/license_form.py:39 | the escape written for any character decodes to that character, whatever follows it |
| JsonText.SurrogatePair | src/license_manager/modals/license_form.py:39 | a code point above U+FFFF splits into a high and a low surrogate that recombine to it |
| JsonText.PairEscapeRoundTrip | src/license_manager/modals/license_form.py:39 | the two `\u` escapes of a surrogate pair decode to the original code point |
| JsonText.ReadPairEscape | src/license_manager/modals/license_form.py:39 | reading a high and a low surrogate escape yields the code point they encode |
| JsonText.StringRoundTrip | src/license_manager/modals/license_form.py:39 | the body of every JSON string literal the encoder writes decodes back to the original string and leaves what follows it |
| CanonicalJson.KeyLtIrreflexive | src/license_manager/modals/license_form.py:39 | Python's string `<` is irreflexive |
| CanonicalJson.KeyLtTransitive | src/license_manager/modals/license_form.py:39 | Python's string `<` is transitive |
| CanonicalJson.KeyLtTotal | src/license_manager/modals/license_form.py:39 | of two different strings, one is `<` the other |
| CanonicalJson.KeyLtAsymmetric | src/license_manager/modals/license_form.py:39 | Python's string `<` is asymmetric |
| CanonicalJson.InsertItem | src/license_manager/modals/license_form.py:39 | insertion adds exactly the one item |
| CanonicalJson.InsertSorted | src/license_manager/modals/license_form.py:39 | inserting an item with a new key keeps the items in ascending key order |
| CanonicalJson.SortByKey | src/license_manager/modals/license_form.py:39 | `sort_keys` outputs a permutation of the dict's items |
| CanonicalJson.SortByKeySorted | src/license_manager/modals/license_form.py:39 | with distinct keys, the items come out in strictly ascending key order |
| CanonicalJson.SortedUnique | src/license_manager/modals/license_form.py:39 | there is only one strictly sorted arrangement of a multiset of items |
| CanonicalJson.ObjectRoundTrip | src/license_manager/modals/license_form.py:39 | the compact object text of a list of items reads back as exactly those items |
| CanonicalJson.MembersRoundTrip | src/license_manager/modals/license_form.py:39 | the members text reads back as its items, and the reader stops at the closing brace |
| CanonicalJson.Dumps | src/license_manager/modals/license_form.py:39 | `json.dumps(d, sort_keys=True, separators=(",", ":"))`: `{`, the members in ascending key order, `}`; `DumpsRoundTrip` and `DumpsIffSameItems` state what the text determines |
| CanonicalJson.DumpsRoundTrip | src/license_manager/modals/license_form.py:39 | reading `json.dumps(d, sort_keys=True, separators=(",", ":"))` back yields the items of `d` in ascending key order |
| CanonicalJson.DumpsIffSameItems | src/license_manager/modals/license_form.py:39 | two dicts with distinct keys serialise to the same text if and only if they hold the same key-value pairs, in whatever order they were built |
| CanonicalJson.ClaimDictDistinct | src/license_manager/modals/license_form.py:31-38 | the six claim keys are distinct |
| CanonicalJson.SortedClaimItemsSorted | src/license_manager/modals/license_form.py:39 | customer, expires_at, features, hwid, issued_at, product is ascending key order |
| CanonicalJson.SortedClaimItemsPermutation | src/license_manager/modals/license_form.py:31-39 | the sorted claim items are a permutation of the claim dict |
| CanonicalJson.ClaimsSortOrder | src/license_manager/modals/license_form.py:31-39 | sorting the claim dict gives the six claims in ascending key order |
| CanonicalJson.CanonicalLayout | src/license_manager/modals/license_form.py:31-39 | the canonical text is `{`, then the six members in ascending key order separated by `,`, then `}` |
| CanonicalJson.SortedClaimText | src/license_manager/modals/license_form.py:39 | the members text of the sorted claims is the six members joined by `,` |
| CanonicalJson.Canonical | src/license_manager/modals/license_form.py:31-39 | the canonical text of the six claims; `CanonicalLayout`, `CanonicalReadsBack`, `CanonicalInjective` and `CanonicalOrderIndependent` state its shape and what it determines |
| CanonicalJson.CanonicalInjective | src/license_manager/modals/license_form.py:31-39 | two claim sets have the same canonical text if and only if they are equal, so changing any field changes the signed text |
| CanonicalJson.CanonicalReadsBack | src/license_manager/modals/license_form.py:39 | the canonical text reads back as the six claims and nothing else |
| CanonicalJson.CanonicalOrderIndependent | src/license_manager/modals/license_form.py:31-39 | a dict holding the same six claim items, built in any order, serialises to the canonical text |
| AppContexts.Swept | src/license_manager/utils/app_context.py:52-58 | the directory after the start-up sweep; `CleanTempFiles` is proved to reach it whatever the listing order, and `SweepKeepsState` that it keeps the state file |
| AppContexts.CleanTempFiles | src/license_manager/utils/app_context.py:52-58 | the sweep removes exactly the `.tmp` names that can be removed, in whatever order the listing comes, and leaves every other file's content alone |
| AppContexts.Load | src/license_manager/utils/app_context.py:31-39 | a missing, unparseable or unreadable state file gives an empty context; a file that does not decode raises `UnicodeDecodeError`, which `_load` does not catch; otherwise the context is the file's object |
| AppContexts.SweepKeepsState | src/license_manager/utils/app_context.py:9-11 | the sweep never changes what `_load` reads |
| AppContexts.AppContext.Open | src/license_manager/utils/app_context.py:5-11 | the directory is swept on every path; construction raises exactly when `_load` raises, and otherwise the new context holds what the state file held before the sweep |
| AppContexts.AppContext.Loaded | src/license_manager/utils/app_context.py:10-11 | the object holds the swept directory and the loaded context |
| AppContexts.AppContext.Get | src/license_manager/utils/app_context.py:13-14 | `get` returns the stored value, or the default for a missing key |
| AppContexts.AppContext.Item | src/license_manager/utils/app_context.py:24-25 | `ctx[key]` is `None` exactly for a missing key |
| AppContexts.AppContext.Save | src/license_manager/utils/app_context.py:41-50 | a save that succeeds replaces the state file with the context and changes nothing else, so loading it gives the context back; a save that fails leaves the directory as it was, with its temporary file removed, and reports the error |
| AppContexts.AppContext.Set | src/license_manager/utils/app_context.py:16-29 | `set` and `ctx[key] = value` (lines 16-18 and 27-29, the same body): the context changes at `key` only; then it is saved as `Save` states |
| AppContexts.AppContext.Update | src/license_manager/utils/app_context.py:20-22 | the keys passed take their new values and every other key keeps its value; then the context is saved |
| SigningAuthorities.FromKeyText | src/license_manager/widgets/signing_authority.py:16-17 | key text gives an authority exactly when it decodes, and that authority holds the decoded key |
| SigningAuthorities.FromKeyFile | src/license_manager/widgets/signing_authority.py:18-21 | an unreadable key file raises; otherwise the file's text is stripped and decoded |
| SigningAuthorities.NewAuthority | src/license_manager/widgets/signing_authority.py:13-23 | an explicit key wins; otherwise non-empty key text; otherwise a non-empty key file path; otherwise a freshly generated key |
| SigningAuthorities.KeyTextRoundTrip | src/license_manager/widgets/signing_authority.py:25-26 | the exported signing key text loads back as the same authority |
| SigningAuthorities.SavedKeyFileLoads | src/license_manager/widgets/signing_authority.py:102-103 | a key file written by `_save_key` loads back as the authority that wrote it |
| SigningAuthorities.ExportsDependOnKeyOnly | src/license_manager/widgets/signing_authority.py:25-33 | the exported keys and every signature are functions of the signing key alone |
| SigningAuthorities.SaveThenOpen | src/license_manager/widgets/signing_authority.py:93-106 | opening a key file the pane saved gives back the same authority |
| SigningAuthorities.SigningAuthorityPane.constructor | src/license_manager/widgets/signing_authority.py:36-38 | a new pane has no authority |
| SigningAuthorities.SigningAuthorityPane.LoadKey | src/license_manager/widgets/signing_authority.py:93-97 | on success the authority is the one the constructor builds from the file, and the key fields show its exports and the path; on failure the error propagates and nothing changes |
| SigningAuthorities.SigningAuthorityPane.OnMount | src/license_manager/widgets/signing_authority.py:58-61 | the `last_key` file in the context is loaded when it is set and non-empty; otherwise nothing changes |
| SigningAuthorities.SigningAuthorityPane.Generate | src/license_manager/widgets/signing_authority.py:65-69 | a fresh authority is shown, and the current key field is cleared |
| SigningAuthorities.SigningAuthorityPane.CopyVerificationKey | src/license_manager/widgets/signing_authority.py:70-75 | the verification key is copied exactly when an authority is loaded |
| SigningAuthorities.SigningAuthorityPane.OpenKey | src/license_manager/widgets/signing_authority.py:77-82 | a chosen file is loaded, and only if loading succeeds is it recorded as `last_key` and saved: on success the state file alone changes, to the new context; if saving fails the directory is unchanged; a cancelled picker changes nothing |
| SigningAuthorities.SigningAuthorityPane.SaveKeyTo | src/license_manager/widgets/signing_authority.py:99-106 | the signing key text is written to the file and the path is recorded as `last_key`; when the context is saved the state file alone changes and the current key field shows the path; when saving fails the directory and the field are unchanged; without an authority nothing happens |
| SigningAuthorities.SigningAuthorityPane.SaveKey | src/license_manager/widgets/signing_authority.py:84-91 | without an authority it only warns; otherwise the key is saved to the chosen file as `SaveKeyTo` states, with the same state-file and current-key-field outcomes on success and on failure; a cancelled picker changes nothing |
| LicenseForm.IsNotEmpty | src/license_manager/modals/license_form.py:115-117 | false exactly for the empty string |
| LicenseForm.HwidResult | src/license_manager/modals/license_form.py:64 | the hardware id input is valid exactly when it is not empty; otherwise its one failure reads "Hardware ID cannot be empty" |
| LicenseForm.Present | src/license_manager/modals/license_form.py:105-106 | the descriptions collected are among the failures' descriptions |
| LicenseForm.PresentComplete | src/license_manager/modals/license_form.py:105-106 | every description that is present is collected |
| LicenseForm.PresentConcat | src/license_manager/modals/license_form.py:105-106 | collecting keeps the failures' order: the descriptions of joined failure lists are the joined descriptions |
| LicenseForm.PresentOne | src/license_manager/modals/license_form.py:105-106 | a present description is kept and a missing one is skipped |
| LicenseForm.CollectErrors | src/license_manager/modals/license_form.py:98-107 | `valid` holds exactly when no input reports an invalid result; `errors` is one `- description` line per failure description, in input order |
| LicenseForm.AppendDescriptionLines | src/license_manager/modals/license_form.py:105-106 | each description is appended as one `- description` line |
| LicenseForm.NoFailuresNoErrors | src/license_manager/modals/license_form.py:98-107 | with no failing input the error text is empty |
| LicenseForm.ErrorLinesAppend | src/license_manager/modals/license_form.py:101-106 | a further input adds its description lines, if it fails, at the end of the error text |
| LicenseForm.FormValidIffHwid | src/license_manager/modals/license_form.py:52-64 | the form's inputs, in the form's order, all pass exactly when the date picker's inputs pass and the hardware id is not empty |
| LicenseForm.TextInputsValidation | src/license_manager/modals/license_form.py:52-64 | the form's text inputs pass exactly when the hardware id is not empty; otherwise the error text is the single hardware id line |
| LicenseForm.TextInputsErrors | src/license_manager/modals/license_form.py:64 | the error text of the four text inputs is empty or the hardware id line |
| LicenseForm.HwidLine | src/license_manager/modals/license_form.py:106 | the hardware id failure is written as `- Hardware ID cannot be empty` and a newline |
| LicenseForm.HwidLabel | src/license_manager/modals/license_form.py:108 | with only the hardware id empty, the label reads `- Hardware ID cannot be empty` without the trailing newline |
| LicenseForm.ClaimsOf | src/license_manager/modals/license_form.py:25-38 | an expiry date that is not picked becomes the empty string, and the issue date is today |
| LicenseForm.RecordKeysFree | src/license_manager/modals/license_form.py:41-42 | `signature` and `canonical` are new keys of the claim dict |
| LicenseForm.SignedRecord | src/license_manager/modals/license_form.py:31-42 | the dict the form is dismissed with; `SignedRecordCoversClaims`, `SignedRecordParts` and `SignedRecordDistinct` state its keys and values |
| LicenseForm.SignedRecordCoversClaims | src/license_manager/modals/license_form.py:31-42 | the signed record has distinct keys; its `canonical` is the serialisation of its first six items; its `signature` signs that text; and that text reads back as the six claims |
| LicenseForm.SignedRecordParts | src/license_manager/modals/license_form.py:39-42 | the record is the claim dict, then the signature of the canonical text, then that text |
| LicenseForm.SignedRecordDistinct | src/license_manager/modals/license_form.py:31-42 | the record's eight keys are distinct |
| LicenseForm.LicenseFormModal.constructor | src/license_manager/modals/license_form.py:16-18 | the form takes the pane's authority as it is when the form opens |
| LicenseForm.LicenseFormModal.DoSign | src/license_manager/modals/license_form.py:20-45 | without an authority it only warns; otherwise it dismisses with the signed record of the form's claims |
| LicenseForm.LicenseFormModal.Validate | src/license_manager/modals/license_form.py:98-109 | it reports whether every input passed, which holds exactly when the date picker's inputs pass and the hardware id is not empty; the label shows the stripped error text of all inputs in form order |
| LicenseForm.LicenseFormModal.Submit | src/license_manager/modals/license_form.py:111-113 | it signs only when validation passes, so the form is never dismissed with an empty hardware id; a failed validation leaves the form open |
| LicenseStore.RowOf | src/license_manager/widgets/license_table.py:177-184 | the values `add_license` inserts, each column's key of the dict or `""`; `ColumnsOf` and `SignedRecordColumns` state them for a signed record |
| LicenseStore.Insert | src/license_manager/widgets/license_table.py:172-187 | `INSERT` under AUTOINCREMENT; `InsertSpec`, `FirstIdIsOne` and `IdsNeverReused` state what it issues and keeps |
| LicenseStore.Delete | src/license_manager/widgets/license_table.py:202-207 | `DELETE ... WHERE id = ?`; `DeleteSpec`, `WithoutValid` and `WithoutSorted` state what it removes and keeps |
| LicenseStore.Find | src/license_manager/widgets/license_table.py:192-194 | `SELECT ... WHERE id = ?` finds a row exactly when one has the id, and returns that row |
| LicenseStore.Without | src/license_manager/widgets/license_table.py:206 | the remaining rows are exactly those with another id |
| LicenseStore.InsertSpec | src/license_manager/widgets/license_table.py:172-187 | an insert issues an id above every id ever issued, stores the row under it, keeps the table valid and changes no other row |
| LicenseStore.FindAppend | src/license_manager/widgets/license_table.py:172-187 | a lookup in the rows after an append finds the old row, or else the appended one |
| LicenseStore.DeleteSpec | src/license_manager/widgets/license_table.py:202-207 | a delete reports whether the id existed; afterwards no row has it, the other rows are unchanged, and the counter stays |
| LicenseStore.FindWithout | src/license_manager/widgets/license_table.py:202-207 | deleting one id does not change the lookup of any other id |
| LicenseStore.WithoutValid | src/license_manager/widgets/license_table.py:202-207 | a delete keeps the table valid |
| LicenseStore.WithoutAbsent | src/license_manager/widgets/license_table.py:202-207 | deleting an id no row has leaves the rows as they are |
| LicenseStore.WithoutSplice | src/license_manager/widgets/license_table.py:202-207 | deleting a row's id cuts out exactly that row; the rows before and after it stay, in order |
| LicenseStore.WithoutSorted | src/license_manager/widgets/license_table.py:202-207 | a delete keeps the rows in ascending id order |
| LicenseStore.FirstIdIsOne | src/license_manager/widgets/license_table.py:228 | the first license in a new file gets id 1 |
| LicenseStore.IdsNeverReused | src/license_manager/widgets/license_table.py:228 | across any mix of inserts and deletes, the issued ids strictly increase and lie above every id issued before |
| LicenseStore.LicenseDictDistinct | src/license_manager/widgets/license_table.py:227-237 | `dict(row)` has the nine schema columns as its distinct keys |
| LicenseStore.ExportDict | src/license_manager/widgets/license_table.py:79-80 | `dict(row)` without `id` and `canonical`; `ExportKeepsColumns` states its columns |
| LicenseStore.ExportKeepsColumns | src/license_manager/widgets/license_table.py:79-82 | the exported dict has every column except `id` and `canonical`, each with its stored value |
| LicenseStore.RemoveTwo | src/license_manager/widgets/license_table.py:79-80 | deleting two keys removes exactly those two and keeps every other key's value |
| LicenseDatabase.OpenedSpec | src/license_manager/widgets/license_table.py:214-239 | connecting creates the file with an empty table when it is missing, and changes no other file |
| LicenseDatabase.OpenedIdempotent | src/license_manager/widgets/license_table.py:224-238 | opening the same file again changes nothing (`CREATE TABLE IF NOT EXISTS`) |
| LicenseDatabase.LicenseDB.constructor | src/license_manager/widgets/license_table.py:150-157 | an empty or missing path leaves the store disconnected; otherwise it opens that file |
| LicenseDatabase.LicenseDB.Connect | src/license_manager/widgets/license_table.py:214-239 | the connection is to the new path, and that file exists with its table |
| LicenseDatabase.LicenseDB.Connected | src/license_manager/widgets/license_table.py:159-160 | true exactly when a connection is open |
| LicenseDatabase.LicenseDB.ChangeDb | src/license_manager/widgets/license_table.py:162-166 | the store switches to the new file, and no file, the old one included, changes |
| LicenseDatabase.LicenseDB.AddLicense | src/license_manager/widgets/license_table.py:168-187 | disconnected: nothing changes. Connected: the dict's columns, each `""` when missing, are stored under a fresh id above every id in the table, and every other lookup is unchanged |
| LicenseDatabase.LicenseDB.GetLicense | src/license_manager/widgets/license_table.py:189-194 | the row with the id, or `None` when it is absent or the store is disconnected |
| LicenseDatabase.LicenseDB.ListLicenses | src/license_manager/widgets/license_table.py:196-200 | every row, or `None` exactly when the store is disconnected |
| LicenseDatabase.LicenseDB.DeleteLicense | src/license_manager/widgets/license_table.py:202-207 | `true` exactly when a row had the id; afterwards no row has it, and every other lookup is unchanged |
| LicenseDatabase.LicenseDB.Close | src/license_manager/widgets/license_table.py:209-212 | afterwards there is no connection |
| LicenseTable.ViewOfRecord | src/license_manager/widgets/license_table.py:37-41 | the row added for a new license shows what the store holds for it |
| LicenseTable.Views | src/license_manager/widgets/license_table.py:103-107 | one table row per license, in order |
| LicenseTable.RemoveKey | src/license_manager/widgets/license_table.py:135-137 | removing a row key leaves exactly the other rows |
| LicenseTable.ViewsWithout | src/license_manager/widgets/license_table.py:56-57 | deleting a license from the store and removing its row from the table agree |
| LicenseTable.ViewsAppend | src/license_manager/widgets/license_table.py:37-41 | storing a license last and adding its row last agree |
| LicenseTable.FindAt | src/license_manager/widgets/license_table.py:143-147 | the license shown in any row is found in the store by that row's id |
| LicenseTable.LicenseTablePane.constructor | src/license_manager/widgets/license_table.py:31-35 | the store opens the context's `license_db` file when that value is non-empty, and the table shows its rows |
| LicenseTable.LicenseTablePane.TableAdd | src/license_manager/widgets/license_table.py:122-133 | the row goes last |
| LicenseTable.LicenseTablePane.LoadLicenses | src/license_manager/widgets/license_table.py:103-107 | a row is appended for every license the store lists, in order |
| LicenseTable.LicenseTablePane.AddLicense | src/license_manager/widgets/license_table.py:37-41 | disconnected, nothing changes; otherwise the store's file becomes the `Insert` result, so every other row and file is untouched, the license is stored under the issued id and shown as the last row; the table keeps mirroring the store |
| LicenseTable.LicenseTablePane.EventNewLicense | src/license_manager/widgets/license_table.py:99-101 | a dismissed form's record is added as `AddLicense` states: the store's file becomes the `Insert` result and the record is shown as the last row; a cancelled or empty result, or a disconnected store, changes nothing |
| LicenseTable.LicenseTablePane.OnDeleteLicense | src/license_manager/widgets/license_table.py:48-57 | the license under the cursor is deleted: the store's file becomes the `Delete` result, so every other row and file is untouched, and its row is removed; the table keeps mirroring the store |
| LicenseTable.LicenseTablePane.ExportLicense | src/license_manager/widgets/license_table.py:59-83 | the chosen file receives the cursor's license without `id` and `canonical`; a cancelled picker writes nothing |
| LicenseTable.LicenseTablePane.ChangeDb | src/license_manager/widgets/license_table.py:109-115 | the chosen file is recorded in the context; when the save succeeds the state file alone changes, then the store switches to the file and the table shows its rows; if saving raises, the directory, the store and the table are unchanged |
| LicenseTable.LicenseTablePane.SwitchTo | src/license_manager/widgets/license_table.py:112-115 | the store switches, the table is cleared and reloaded, and it mirrors the new store |
| LicenseTable.StoredSignedRecord | src/license_manager/widgets/license_table.py:168-187 | a signed record is stored column for column; its stored signature signs its stored canonical text, which reads back as the claims |
| LicenseTable.SignedRecordColumns | src/license_manager/widgets/license_table.py:177-184 | the columns taken from a signed record are its claims, signature and canonical text |
| LicenseTable.ColumnsOf | src/license_manager/widgets/license_table.py:177-184 | each column is read from its own key of the record |

## Left out

- The Textual user interface is not modelled. This covers `compose`, CSS
  classes, notifications, `@work` and `push_screen_wait`, the modal's key
  and button handlers, and the file pickers. The pickers' results are
  parameters of the methods that use them.
- The clipboard (`pyperclip.copy`) is not modelled. `CopyVerificationKey`
  returns the text it would copy.
- Ed25519 and URL-safe base64 are not modelled: the functions of the PyNaCl
  library are uninterpreted. So nothing is proved about signature
  verification or key lengths, and sign-then-verify is not a lemma.
- `SigningKey.generate()` is randomness, so the generated key is a parameter.
- SQLite internals are not modelled. This covers the SQL engine, the
  connection objects and `row_factory`.
- The rows a full scan returns are taken to be in ascending id order. SQLite
  does not promise this for a `SELECT` without `ORDER BY`.
- `LicenseDatabase.LicenseDB.Connect` does not model the failures of
  `os.makedirs` or `sqlite3.connect`. One of these is `os.makedirs('')` for a
  bare file name without a directory. After such a failure the old
  connection is already closed, but `conn` still refers to it, so later
  calls fail as well. The model assumes every connection succeeds.
- `LicenseDatabase.LicenseDB.Connect` treats every file as a SQLite database.
  A file that exists but is not one is not modelled. `sqlite3.connect`
  succeeds on such a file, and then `CREATE TABLE IF NOT EXISTS`
  (`license_table.py:224-238`) raises `DatabaseError`. `Opened` instead
  treats the path as holding a table. The model never raises here.
- `LicenseDatabase.LicenseDB.constructor` does not model that same
  `DatabaseError`. In the source, a `license_db` path that names a file which
  is not a database makes the constructor raise, so the pane cannot mount.
- `LicenseDatabase.LicenseDB.ChangeDb` does not model that same
  `DatabaseError`. In the source, the switch raises after `_connect` has
  closed the old connection. The store is then left connected to the bad
  file.
- `LicenseTable.LicenseTablePane.ChangeDb` does not model that same
  `DatabaseError` after a successful save of the context. In the source,
  `license_db` already names the bad file, so the next start fails as well.
  The table is neither cleared nor reloaded, so it keeps showing the old
  store's rows. In the model, the switch always succeeds and the table
  mirrors the new store.
- `LicenseTable.LicenseTablePane.ExportLicense` does not model write failures
  of the export file. Its content is the dict `json.dump` would write; the
  `indent=4` layout is not modelled.
- `SigningAuthorities.SigningAuthorityPane.SaveKeyTo` does not model write
  failures of the key file.
- Path handling is not modelled: `os.path.realpath`, `os.path.dirname`,
  `_db_folder`, `_key_folder` and `user_config_dir`. These only choose the
  folder a picker starts in and the configuration directory.
- Date formatting is not modelled: `date.today().strftime` and
  `format_common_iso`. Both dates enter as already-formatted strings.
- `AppContexts.Load` reads only JSON objects of strings. Every other JSON
  value is `Other`, and it yields an empty context like an unparseable file.
  `json.load` would return such a value as it is.
- `CanonicalJson.CanonicalInjective` and `CanonicalJson.DumpsIffSameItems`
  hold for strings of Unicode scalar values, which is what a Dafny `string`
  holds. A Python `str` may also hold surrogate code points (U+D800 to
  U+DFFF), alone or one after another. The
  `ensure_ascii` escaping is not injective over such strings: `"\U0001F600"`
  and `"\ud83d\ude00"` are both written `"\ud83d\ude00"`. So two claim sets
  that differ only in this way have the same canonical text. Claim strings
  holding surrogate code points are not modelled.
- `LicenseStore.Insert` and `LicenseStore.IdsNeverReused` use unbounded ids.
  SQLite's rowid is a 64-bit integer: once an AUTOINCREMENT table has issued
  the largest one, an insert fails with `SQLITE_FULL`. That error path is not
  modelled.
- `AppContexts.AppContext.Save` does not model the layout of the state
  file's text. It models the file as holding the context.
- The validation results of the date picker's inner inputs are a parameter
  of `Validate` and `Submit`. They are not derived from the date picker. The
  results of the other four inputs come from the form's fields
  (`FormResults`).
- The `DataTable` error for a duplicate row key is not modelled. The store
  never issues an id twice (`LicenseStore.IdsNeverReused`), so it cannot
  occur.
- `license_manager.py` and `__main__.py` are not part of this model. They
  only assemble the application.
- There is no import of exported license files, because the source has none.
