# SWIFT-code registry: a Dafny model of its consistency rules

The repository holds two Spring Boot applications around one table, `swift_codes`. Each row
has a bank code of 8 to 11 characters, some descriptive fields, a headquarters flag and an
optional link to the row of its headquarters. A code ending in `XXX` is a headquarters. Any
other code is a branch, and its headquarters is the code made of its first eight characters
(the prefix) followed by `XXX`.

- The orphan-tolerant application (`InternSwiftCodesProject`) validates an insert in a fixed
  order of checks. It stores a branch whose headquarters is missing as an orphan. A new
  headquarters then claims every unlinked row that shares its prefix.
- The strict application (`atakiprojekt`) accepts only codes of exactly 8 or 11
  characters. It refuses a branch whose headquarters is not stored. Its insert has no
  charset, duplicate or country check in the controller.
- Both applications use the same service save, which refuses a duplicate and claims orphans
  for a headquarters. They also use the same service delete, which unlinks the branches of a
  headquarters before removing it.
- The CSV importer of the strict application's test tree works in two passes. Pass 1 saves
  new records and files each headquarters of the batch under its prefix. Pass 2 walks the
  whole store and links every branch whose prefix names a filed headquarters.

Modules:

- `Entity` holds the row value `Entry` and the entity class `SwiftCode`.
- `Repository` holds the store: the class `Repo` over a `map` from code to row. Its derived
  queries return every matching row once, in an order the model leaves open.
- `Linking` holds the service's save and delete as functions of the store, `Saved` and
  `Deleted`, and the link invariants.
- `InternService`, `InternController` and `InternFindings` cover the orphan-tolerant
  application.
- `AtakiService` and `AtakiController` cover the strict application.
- `AtakiImporter` covers the CSV import.
- `Dto` holds the response objects.

Each endpoint and service operation is a method on the `Repo` object. Its `ensures` ties the
new store and the answer to a function of the old store (`Add`, `Store`, `Insert`, `Delete`,
`Saved`, `Deleted`, `Load`, `LinkPass`). The lemmas prove what those functions promise: the
invariants kept, the insert/delete round trip, the order-independence of linking, and the
exact accept/reject conditions.

The strict application's repository interface does not declare three queries its service
calls: `findByHeadquarterIsNullAndSwiftCodeStartingWith`,
`findBySwiftCodeStartingWithAndHeadquarterFlagFalse` and `findByHeadquarter`. The model gives
them the meaning Spring Data derives from their names, the same as in the other application.

## Model

| member | source | states |
|---|---|---|
| Entity.SwiftCode.constructor | src/main/java/com/example/InternSwiftCodesProject/SwiftCode.java:28-36 | the six-argument constructor sets code, bank name, address, ISO2, country name and flag as given, and leaves the headquarters link null |
| Entity.SwiftCode.SetHeadquarter | src/main/java/com/example/InternSwiftCodesProject/SwiftCode.java:24-26 | setting the link changes the link and no other field of the row |
| Entity.Prefix | src/main/java/com/example/InternSwiftCodesProject/services/SWIFTCodeService.java:181 | `substring(0, 8)` yields eight characters that start the code; a shorter code is outside its precondition, and callers prove the throw unreachable or model it |
| Entity.ExpectedHeadquarter | src/main/java/com/example/InternSwiftCodesProject/controllers/SWIFTCodeController.java:191-193 | `prefix + "XXX"` is an 11-character headquarters code with the same prefix as the branch |
| Entity.ElevenCharHeadquartersAgree | src/main/java/com/example/InternSwiftCodesProject/controllers/SWIFTCodeController.java:191-193 | for an 11-character headquarters, "starts with its prefix" (the headquarters-side scan) holds exactly when "its `prefix + XXX` is this headquarters" (the branch-side lookup) |
| Text.Trim | src/main/java/com/example/InternSwiftCodesProject/controllers/SWIFTCodeController.java:135-139 | `String.trim`: the result is a run of consecutive characters of the input with no character `<= ' '` at either end, everything before and after it in the input is such a character, and it is empty exactly when every character of the input is one |
| Text.TrimKeepsPrintable | src/test/java/com/example/atakiprojekt/CSVParserService.java:61-66 | trimming printable text leaves printable text |
| Text.TrimKeepsNonBlank | src/main/java/com/example/InternSwiftCodesProject/controllers/SWIFTCodeController.java:135-139 | trimming removes only characters `<= ' '`: every other character occurs in the result as often as in the input |
| Text.TrimUpper | src/main/java/com/example/atakiprojekt/SWIFTCodeController.java:121-123 | `s.trim().toUpperCase()` is upper case, has no blank at either end, equals the trimmed input ignoring case, and is empty exactly when the input is blank |
| Text.TrimUpperIdempotent | src/main/java/com/example/atakiprojekt/SWIFTCodeController.java:121-123 | normalising twice is normalising once, and upper-case text with no blank ends is its own normal form |
| Text.StripNonPrintable | src/test/java/com/example/atakiprojekt/CSVParserService.java:63 | `replaceAll("[^\\x20-\\x7E]", "")` keeps every printable ASCII character as often as it occurs and drops every other one, so the result is printable ASCII no longer than the input |
| Text.StripKeepsPrintable | src/test/java/com/example/atakiprojekt/CSVParserService.java:63 | on text that is already printable ASCII the stripping changes nothing |
| Text.UpperStable | src/main/java/com/example/InternSwiftCodesProject/controllers/SWIFTCodeController.java:135 | `toUpperCase` yields upper-case text and is idempotent |
| Repository.Repo.FindById | src/main/java/com/example/InternSwiftCodesProject/services/SWIFTCodeService.java:157 | `findById` finds a row exactly when the key is stored, and returns that row |
| Repository.Repo.ExistsById | src/test/java/com/example/atakiprojekt/CSVParserService.java:56 | `existsById`/`existsBySwiftCode` is true exactly when the key is stored |
| Repository.Repo.Save | src/main/java/com/example/InternSwiftCodesProject/services/SWIFTCodeService.java:195 | `save` writes the row under its code and touches no other row |
| Repository.Repo.DeleteById | src/main/java/com/example/InternSwiftCodesProject/services/SWIFTCodeService.java:221 | `deleteById` removes that key and nothing else |
| Repository.Repo.Select | src/main/java/com/example/atakiprojekt/SWIFTCodeRepo.java:13-22 | a derived query reads the rows with the selected codes one at a time and returns each of them exactly once, in an order of the store's choosing |
| Repository.Repo.FindAll | src/test/java/com/example/atakiprojekt/CSVParserService.java:90 | `findAll` lists every stored row exactly once |
| Repository.Repo.FindByHeadquarterIsNullAndSwiftCodeStartingWith | src/main/java/com/example/InternSwiftCodesProject/services/SWIFTCodeService.java:185 | lists exactly the unlinked rows whose code starts with the prefix, whatever their flag |
| Repository.Repo.FindBySwiftCodeStartingWithAndHeadquarterFlagFalse | src/main/java/com/example/InternSwiftCodesProject/services/SWIFTCodeService.java:152 | lists exactly the non-headquarters rows whose code starts with the prefix |
| Repository.Repo.FindByHeadquarter | src/main/java/com/example/atakiprojekt/SWIFTCodeRepo.java:16-18 | lists exactly the rows whose join column names the given headquarters code |
| Repository.Repo.FindByCountryISO2IgnoreCase | src/main/java/com/example/InternSwiftCodesProject/services/SWIFTCodeService.java:147 | lists exactly the rows whose ISO2 equals the argument ignoring case |
| Linking.Relink | src/main/java/com/example/InternSwiftCodesProject/services/SWIFTCodeService.java:187-190 | the services' loops set the link of exactly the listed rows to one value and change nothing else |
| Linking.ClaimOrphans | src/main/java/com/example/InternSwiftCodesProject/services/SWIFTCodeService.java:180-190 | the orphan scan links every unlinked row starting with the prefix to the new headquarters, whatever that row's flag, and keeps every other row |
| Linking.Unlink | src/main/java/com/example/InternSwiftCodesProject/services/SWIFTCodeService.java:210-218 | a headquarters delete clears exactly the links to it; those rows lose nothing else, and no row links to it afterwards |
| Linking.Saved | src/main/java/com/example/InternSwiftCodesProject/services/SWIFTCodeService.java:166-197 | the save fails with a duplicate exactly when the code is stored, and with a substring exception exactly for a short headquarters code; otherwise it adds the row, a branch save changes no other row, and a headquarters save links exactly the unlinked rows sharing its prefix |
| Linking.Deleted | src/main/java/com/example/InternSwiftCodesProject/services/SWIFTCodeService.java:201-223 | an absent code changes nothing; a present one is removed; deleting a headquarters clears exactly the links to it, and every other remaining row, every row after a branch delete included, survives unchanged |
| Linking.SavePreservesLinks | src/main/java/com/example/InternSwiftCodesProject/services/SWIFTCodeService.java:180-195 | a successful save of a row whose own link is valid keeps every link valid (present, a headquarters, same prefix), and keeps flags derived from codes |
| Linking.DeletePreservesLinks | src/main/java/com/example/InternSwiftCodesProject/services/SWIFTCodeService.java:210-221 | the delete keeps every link valid and flags derived, and leaves no link to the deleted code |
| Linking.SaveThenDeleteRestores | src/main/java/com/example/InternSwiftCodesProject/services/SWIFTCodeService.java:166-223 | deleting a row just saved into a store with valid links gives back exactly the old store, including the links a headquarters had claimed |
| InternService.CountryName | src/main/java/com/example/InternSwiftCodesProject/services/SWIFTCodeService.java:20-134 | the country table: every key is two upper-case ASCII letters |
| InternService.IsValidCountryCode | src/main/java/com/example/InternSwiftCodesProject/services/SWIFTCodeService.java:136-138 | the check is exact key membership, so only two upper-case letters can pass |
| InternService.GetCorrectCountryName | src/main/java/com/example/InternSwiftCodesProject/services/SWIFTCodeService.java:141-143 | the table's name for a listed code, `UNKNOWN` for any other |
| InternService.UnknownIsNotACountry | src/main/java/com/example/InternSwiftCodesProject/services/SWIFTCodeService.java:136-143 | no listed name is `UNKNOWN`, so the name lookup answers `UNKNOWN` exactly for codes `isValidCountryCode` rejects |
| InternService.ValidCountryCodeExamples | src/main/java/com/example/InternSwiftCodesProject/services/SWIFTCodeService.java:136-138 | PL, MT and MC are listed; lower-case pl, ZZ and the empty code are not (no case folding) |
| InternService.CountryNameExamples | src/main/java/com/example/InternSwiftCodesProject/services/SWIFTCodeService.java:141-143 | PL names POLAND; XX, pl and the empty code give UNKNOWN |
| InternService.GetSwiftCodeDetails | src/main/java/com/example/InternSwiftCodesProject/services/SWIFTCodeService.java:156-158 | the lookup upper-cases its argument and finds a row exactly when that code is stored |
| InternService.ExistsBySwiftCode | src/main/java/com/example/InternSwiftCodesProject/services/SWIFTCodeService.java:225-227 | true exactly when the upper-cased code is stored |
| InternService.GetBranchesForHeadquarter | src/main/java/com/example/InternSwiftCodesProject/services/SWIFTCodeService.java:161-163 | lists exactly the rows linked to the given code |
| InternService.FindBranchesByPrefix | src/main/java/com/example/InternSwiftCodesProject/services/SWIFTCodeService.java:151-153 | lists exactly the non-headquarters rows starting with the prefix |
| InternService.GetSwiftCodesByCountry | src/main/java/com/example/InternSwiftCodesProject/services/SWIFTCodeService.java:146-148 | lists exactly the rows of that country, ignoring case |
| InternService.SaveSwiftCode | src/main/java/com/example/InternSwiftCodesProject/services/SWIFTCodeService.java:166-197 | upper-cases the entity's code in place, then the store becomes `Saved` of the old store, or stays unchanged with the exception reported |
| InternService.DeleteSwiftCode | src/main/java/com/example/InternSwiftCodesProject/services/SWIFTCodeService.java:201-223 | answers true exactly when the raw code is stored, and the store becomes `Deleted` of the old store |
| InternController.Normalize | src/main/java/com/example/InternSwiftCodesProject/controllers/SWIFTCodeController.java:135-139 | normalisation throws exactly when code, ISO2, name or address is null; code, ISO2 and name are `TrimUpper` of the request fields, address and bank name are trimmed, and a null bank name reads as empty |
| InternController.NormalizedFields | src/main/java/com/example/InternSwiftCodesProject/controllers/SWIFTCodeController.java:135-139 | after normalisation no field has a blank at either end, code, ISO2 and name are upper case, and each of them is empty exactly when the request field was blank |
| InternController.WithDefaultAddress | src/main/java/com/example/InternSwiftCodesProject/controllers/SWIFTCodeController.java:147-149 | an empty address becomes "No address provided", and any other address is kept |
| InternController.BlankAddressAccepted | src/main/java/com/example/InternSwiftCodesProject/controllers/SWIFTCodeController.java:135-155 | an address that is blank once trimmed is stored as "No address provided", which passes the 3 to 500 character check |
| InternController.FirstFailure | src/main/java/com/example/InternSwiftCodesProject/controllers/SWIFTCodeController.java:141-188 | the answer is the first failing check in source order: it fails, every earlier check passes, and none is reported exactly when every check passes |
| InternController.AcceptedCandidate | src/main/java/com/example/InternSwiftCodesProject/controllers/SWIFTCodeController.java:141-188 | passing the whole chain means a new code of 8 to 11 ASCII letters and digits, a listed ISO2 with its canonical name, a non-empty bank name and an address of 3 to 500 characters |
| InternController.Add | src/main/java/com/example/InternSwiftCodesProject/controllers/SWIFTCodeController.java:130-232 | a 500 exactly when normalisation throws; a rejection exactly when a check fails, naming the first failing one; otherwise the new code was absent and is the one code added, and the answer says headquarters exactly for a code ending in `XXX`; anything but an acceptance leaves the store unchanged |
| InternController.Store | src/main/java/com/example/InternSwiftCodesProject/controllers/SWIFTCodeController.java:190-231 | an accepted candidate is added under its code with every field as normalised, and a stored row changes at most its link |
| InternController.RejectedAddChangesNothing | src/main/java/com/example/InternSwiftCodesProject/controllers/SWIFTCodeController.java:130-188 | a rejected or failed insert leaves the store unchanged; a 500 happens exactly when normalisation throws, and a rejection names the first failing check |
| InternController.StoreBranch | src/main/java/com/example/InternSwiftCodesProject/controllers/SWIFTCodeController.java:208-216 | a branch insert adds exactly that row, linked to `prefix + XXX` when that code is stored and an orphan otherwise, and changes no other row |
| InternController.StoreHeadquarters | src/main/java/com/example/InternSwiftCodesProject/controllers/SWIFTCodeController.java:219-231 | a headquarters insert adds exactly that row unlinked, keeps every linked row, and links every unlinked row sharing its prefix |
| InternController.NoOrphanLeftAfterHeadquarters | src/main/java/com/example/InternSwiftCodesProject/controllers/SWIFTCodeController.java:222-229 | after a headquarters insert no row sharing its prefix is unlinked, so the controller's own orphan loop finds nothing |
| InternController.StorePreservesConsistency | src/main/java/com/example/InternSwiftCodesProject/controllers/SWIFTCodeController.java:190-231 | an accepted insert keeps the registry invariant: keyed rows, well-formed upper-case codes, flags derived from codes, every link valid |
| InternController.AddPreservesConsistency | src/main/java/com/example/InternSwiftCodesProject/controllers/SWIFTCodeController.java:130-232 | every insert request, accepted or not, keeps the registry invariant |
| InternController.BranchThenHeadquartersConverge | src/main/java/com/example/InternSwiftCodesProject/controllers/SWIFTCodeController.java:208-229 | a branch inserted before its `prefix + XXX` headquarters ends up linked to it |
| InternController.HeadquartersThenBranchConverge | src/main/java/com/example/InternSwiftCodesProject/controllers/SWIFTCodeController.java:208-229 | a branch inserted after its `prefix + XXX` headquarters ends up linked to it |
| InternController.AddSwiftCode | src/main/java/com/example/InternSwiftCodesProject/controllers/SWIFTCodeController.java:130-232 | the endpoint's answer and new store are `Add` of the old store, on any keyed store; a store that satisfied the registry invariant still does afterwards |
| InternController.ValidateCandidate | src/main/java/com/example/InternSwiftCodesProject/controllers/SWIFTCodeController.java:141-188 | the checks, run against the store one after another, report exactly `FirstFailure` |
| InternController.SaveCandidate | src/main/java/com/example/InternSwiftCodesProject/controllers/SWIFTCodeController.java:190-231 | an accepted candidate is stored as `Store` describes, and the answer says branch or headquarters by the code's suffix; the service's exceptions cannot occur |
| InternController.SaveBranch | src/main/java/com/example/InternSwiftCodesProject/controllers/SWIFTCodeController.java:208-216 | a new branch row is linked to `prefix + XXX` exactly when the service finds that code, then saved; the save succeeds |
| InternController.SaveHeadquarters | src/main/java/com/example/InternSwiftCodesProject/controllers/SWIFTCodeController.java:219-231 | a new headquarters is saved through the service's orphan scan, and the controller's own pass over its prefix changes nothing more |
| InternController.Delete | src/main/java/com/example/InternSwiftCodesProject/controllers/SWIFTCodeController.java:234-269 | the path is trimmed and upper-cased; 404 exactly for an absent code, which changes nothing; otherwise the code is removed, and the answer is the headquarters one exactly when the deleted row is a headquarters; a branch delete changes no other row; a headquarters delete reports how many rows linked to it, and exactly those rows lose their link |
| InternController.DeleteSwiftCode | src/main/java/com/example/InternSwiftCodesProject/controllers/SWIFTCodeController.java:234-269 | the endpoint's answer and new store are `Delete` of the old store; the 500 path cannot occur |
| InternController.DeletePreservesConsistency | src/main/java/com/example/InternSwiftCodesProject/controllers/SWIFTCodeController.java:234-269 | a delete keeps the registry invariant, removes the normalised code and leaves no link to it |
| InternController.DeleteReportsOrphanedBranches | src/main/java/com/example/InternSwiftCodesProject/controllers/SWIFTCodeController.java:245-258 | deleting a headquarters reports the number of its linked branches, and each of them stays stored, unlinked |
| InternController.StoreThenDeleteRestores | src/main/java/com/example/InternSwiftCodesProject/controllers/SWIFTCodeController.java:130-269 | deleting the code just accepted restores the store exactly, including the orphans a headquarters had claimed |
| InternController.GetSwiftCodeDetails | src/main/java/com/example/InternSwiftCodesProject/controllers/SWIFTCodeController.java:22-87 | the path is trimmed and upper-cased; 400 exactly outside 8-11 characters, 404 exactly for an absent code; a headquarters shows itself with exactly its linked rows, a branch shows itself alone |
| InternController.GetSwiftCodesByCountry | src/main/java/com/example/InternSwiftCodesProject/controllers/SWIFTCodeController.java:89-128 | 400 exactly for an unlisted normalised ISO2, 404 exactly when no row has it; otherwise every row of the country once, the ISO2 echoed, and the name of the first row listed |
| InternFindings.PolishAccepted | src/main/java/com/example/InternSwiftCodesProject/controllers/SWIFTCodeController.java:141-188 | a new 8-11 character alphanumeric code with the Polish fields passes every check |
| InternFindings.HeadquartersClaimedAsOrphan | src/main/java/com/example/InternSwiftCodesProject/services/SWIFTCodeService.java:180-190 | with only `ABCDEXXXXXX` stored, inserting `ABCDEXXX` is accepted and links the stored headquarters under the new one |
| InternFindings.FixedSaved | src/main/java/com/example/InternSwiftCodesProject/services/SWIFTCodeService.java:180-190 | the corrected save claims only unlinked branches whose own `prefix + XXX` is the new headquarters, never a stored headquarters; duplicates still fail |
| InternFindings.FixedScanKeepsHeadquartersUnlinked | src/main/java/com/example/InternSwiftCodesProject/services/SWIFTCodeService.java:180-190 | with the scan limited to the headquarters' own unlinked branches, no headquarters is ever linked and every link stays valid |
| InternFindings.LinkDependsOnInsertOrder | src/main/java/com/example/InternSwiftCodesProject/controllers/SWIFTCodeController.java:191-229 | into an empty store, `ABCDEXXXB1` then `ABCDEXXX` leaves the branch linked, and the reverse order leaves it an orphan; all four inserts are accepted |
| InternFindings.FixedStore | src/main/java/com/example/InternSwiftCodesProject/controllers/SWIFTCodeController.java:191-229 | the insert with the corrected save adds the normalised row, never changes a stored headquarters, and changes at most the link of other stored rows |
| InternFindings.FixedLinkingIsOrderIndependent | src/main/java/com/example/InternSwiftCodesProject/controllers/SWIFTCodeController.java:191-229 | with the corrected scan a branch is linked to `prefix + XXX` exactly when that code is stored, whichever of the two is inserted first |
| AtakiService.CountryName | src/main/java/com/example/atakiprojekt/SWIFTCodeService.java:14-110 | the strict application's country table: every key is two upper-case ASCII letters |
| AtakiService.IsValidCountryCode | src/main/java/com/example/atakiprojekt/SWIFTCodeService.java:112-114 | the check is exact key membership, so only two upper-case letters can pass |
| AtakiService.GetCorrectCountryName | src/main/java/com/example/atakiprojekt/SWIFTCodeService.java:116-118 | the table's name for a listed code, `UNKNOWN` for any other |
| AtakiService.UnknownIsNotACountry | src/main/java/com/example/atakiprojekt/SWIFTCodeService.java:112-118 | the name lookup answers `UNKNOWN` exactly for codes `isValidCountryCode` rejects |
| AtakiService.TableIsSubsetOfInternTable | src/main/java/com/example/atakiprojekt/SWIFTCodeService.java:14-110 | every code of this table is in the other application's table, with the same name |
| AtakiService.ValidCountryCodeExamples | src/main/java/com/example/atakiprojekt/SWIFTCodeService.java:112-114 | PL is listed; pl, the empty code, MT and MC are not, though the other application lists MT and MC |
| AtakiService.CountryNameExamples | src/main/java/com/example/atakiprojekt/SWIFTCodeService.java:116-118 | PL names POLAND; MT and pl give UNKNOWN |
| AtakiService.GetSwiftCodeDetails | src/main/java/com/example/atakiprojekt/SWIFTCodeService.java:132-134 | the lookup upper-cases its argument and finds a row exactly when that code is stored |
| AtakiService.ExistsBySwiftCode | src/main/java/com/example/atakiprojekt/SWIFTCodeService.java:190-192 | true exactly when the upper-cased code is stored |
| AtakiService.GetBranchesForHeadquarter | src/main/java/com/example/atakiprojekt/SWIFTCodeService.java:136-138 | lists exactly the rows linked to the given code, used as given |
| AtakiService.FindBranchesByPrefix | src/main/java/com/example/atakiprojekt/SWIFTCodeService.java:127-129 | lists exactly the non-headquarters rows starting with the prefix |
| AtakiService.GetSwiftCodesByCountry | src/main/java/com/example/atakiprojekt/SWIFTCodeService.java:123-125 | lists exactly the rows of that country, ignoring case |
| AtakiService.SaveSwiftCode | src/main/java/com/example/atakiprojekt/SWIFTCodeService.java:140-167 | upper-cases the entity's code in place, then the store becomes `Saved` of the old store, or stays unchanged with the exception reported |
| AtakiService.DeleteSwiftCode | src/main/java/com/example/atakiprojekt/SWIFTCodeService.java:169-189 | answers true exactly when the raw code is stored, and the store becomes `Deleted` of the old store |
| AtakiController.Normalize | src/main/java/com/example/atakiprojekt/SWIFTCodeController.java:121-123 | normalisation throws exactly when code, ISO2 or name is null; code, ISO2 and name are each `TrimUpper` of the request field, so trimmed and upper case; bank name and address pass through untouched |
| AtakiController.Insert | src/main/java/com/example/atakiprojekt/SWIFTCodeController.java:126-158 | a format error exactly for a code of neither 8 nor 11 characters; 400 "Missing headquarter", naming `prefix + "XXX"`, exactly for a well-sized branch code whose headquarters is not stored; 500 exactly when a code that passes both checks is already stored (the service's duplicate throw); any failure leaves the store unchanged; a success adds exactly the new row under its new code, and stored rows change at most their link |
| AtakiController.Add | src/main/java/com/example/atakiprojekt/SWIFTCodeController.java:116-162 | a null code, ISO2 or name gives a 500 with nothing changed; any failure leaves the store unchanged; a success adds exactly the normalised code, which was absent |
| AtakiController.AddAcceptsExactly | src/main/java/com/example/atakiprojekt/SWIFTCodeController.java:116-162 | an insert succeeds exactly when the three fields are present, the normalised code has 8 or 11 characters, a branch's `prefix + XXX` is stored, and the code is new |
| AtakiController.RejectedAddChangesNothing | src/main/java/com/example/atakiprojekt/SWIFTCodeController.java:116-162 | any outcome other than success leaves the store unchanged |
| AtakiController.InsertedRow | src/main/java/com/example/atakiprojekt/SWIFTCodeController.java:133-158 | a successful insert adds exactly the new row with its derived flag; a branch is linked to its stored `prefix + XXX` and changes no other row |
| AtakiController.CountryFieldsNeverRejected | src/main/java/com/example/atakiprojekt/SWIFTCodeController.java:116-162 | the ISO2 and country name never affect whether an insert succeeds |
| AtakiController.NoCharsetOrCountryCheck | src/main/java/com/example/atakiprojekt/SWIFTCodeController.java:121-136 | `AB-D EFGXXX` in country `ZZ` is accepted into an empty store |
| AtakiController.InsertPreservesConsistency | src/main/java/com/example/atakiprojekt/SWIFTCodeController.java:133-158 | an insert of normalised fields keeps the strict invariant: keyed rows, upper-case codes of 8 or 11 characters, flags derived, every link valid |
| AtakiController.AddPreservesConsistency | src/main/java/com/example/atakiprojekt/SWIFTCodeController.java:116-162 | every insert request keeps the strict invariant |
| AtakiController.AddSwiftCode | src/main/java/com/example/atakiprojekt/SWIFTCodeController.java:116-162 | the endpoint's answer and new store are `Add` of the old store |
| AtakiController.InsertFields | src/main/java/com/example/atakiprojekt/SWIFTCodeController.java:126-158 | from the length check on, the answer and new store are `Insert` of the old store |
| AtakiController.Delete | src/main/java/com/example/atakiprojekt/SWIFTCodeController.java:164-172 | 404 exactly when the raw path is not a stored code, and then nothing changes; otherwise exactly that code is removed |
| AtakiController.DeleteSwiftCode | src/main/java/com/example/atakiprojekt/SWIFTCodeController.java:164-172 | the endpoint's answer and new store are `Delete` of the old store, which uses the path exactly as sent |
| AtakiController.DeletePreservesConsistency | src/main/java/com/example/atakiprojekt/SWIFTCodeController.java:164-172 | a delete keeps the strict invariant, removes the path code and leaves no link to it |
| AtakiController.LowerCasePathNeverDeletes | src/main/java/com/example/atakiprojekt/SWIFTCodeController.java:164-172 | in a consistent store a path that is not upper case deletes nothing and answers 404 |
| AtakiController.InsertThenDeleteRestores | src/main/java/com/example/atakiprojekt/SWIFTCodeController.java:116-172 | deleting the code just inserted restores the store exactly |
| AtakiController.ListBranches | src/main/java/com/example/atakiprojekt/SWIFTCodeController.java:45-57 | the branch list shows exactly the rows linked to the given code, once each |
| AtakiController.GetSwiftCodeDetails | src/main/java/com/example/atakiprojekt/SWIFTCodeController.java:18-82 | 400 exactly when the raw path has neither 8 nor 11 characters, 404 exactly when the upper-cased code is absent (echoing the raw path); a headquarters shows itself with the rows linked to the raw path |
| AtakiController.HeadquartersClaimedAsOrphan | src/main/java/com/example/atakiprojekt/SWIFTCodeService.java:151-160 | into an empty store `ABCDEXXXXXX` then `ABCDEXXX` are both accepted, and the second links the first, a headquarters, under it |
| AtakiController.LowerCasePathListsNoBranches | src/main/java/com/example/atakiprojekt/SWIFTCodeController.java:45 | in a consistent store no row is linked to a path that is not upper case, so such a request shows a headquarters with no branches |
| AtakiController.GetSwiftCodeDetailsFixed | src/main/java/com/example/atakiprojekt/SWIFTCodeController.java:18-82 | with branches fetched by the found row's code, a headquarters shows exactly its linked rows whatever the case of the path |
| AtakiController.GetSwiftCodesByCountry | src/main/java/com/example/atakiprojekt/SWIFTCodeController.java:84-114 | 404 exactly when no row has the raw ISO2 ignoring case; otherwise every row of the country once, the path upper-cased, and the name of the first row listed |
| Dto.DisplayAddress | src/main/java/com/example/InternSwiftCodesProject/DTO/SWIFTCodeDTO.java:27-30 | a null or blank address shows `No address avaliable`; any other address is shown untouched |
| Dto.DisplayedAddressNeverBlank | src/main/java/com/example/atakiprojekt/SwiftCodeWithBranchesDTO.java:30-32 | the shown address is never blank |
| Dto.AddressExamples | src/main/java/com/example/InternSwiftCodesProject/DTO/SWIFTCodeDTO.java:27-30 | a padded address is shown with its spaces; a blank or null one shows the placeholder |
| Dto.Dtos | src/main/java/com/example/atakiprojekt/SWIFTCodeController.java:48-57 | one response object per listed row, in list order |
| AtakiImporter.CleanAddress | src/test/java/com/example/atakiprojekt/CSVParserService.java:61-66 | the cleaned address is printable ASCII with no blank at either end, and keeps every printable non-blank character of the raw address as often as it occurs |
| AtakiImporter.CleaningKeepsText | src/test/java/com/example/atakiprojekt/CSVParserService.java:61-66 | trim, strip and trim again drop only blanks and characters outside 0x20-0x7E |
| AtakiImporter.Imported | src/test/java/com/example/atakiprojekt/CSVParserService.java:54-80 | one entity per record, in file order |
| AtakiImporter.Linked | src/test/java/com/example/atakiprojekt/CSVParserService.java:90-97 | the closed form of pass 2 keeps the set of stored codes |
| AtakiImporter.Load | src/test/java/com/example/atakiprojekt/CSVParserService.java:54-88 | pass 1 removes no stored code and drops no headquarters prefix filed before it |
| AtakiImporter.LoadStep | src/test/java/com/example/atakiprojekt/CSVParserService.java:55-87 | one record handled as the loop body does (skip a stored code, throw on a short headquarters code, otherwise save and file) advances `Load` by exactly one entity |
| AtakiImporter.LinkPass | src/test/java/com/example/atakiprojekt/CSVParserService.java:90-98 | pass 2 keeps every stored code and adds none but codes of the listing |
| AtakiImporter.ParseAndStoreSwiftData | src/test/java/com/example/atakiprojekt/CSVParserService.java:47-103 | the import ends where `Load` says when pass 1 throws; otherwise the store is `LinkPass` over some complete `findAll` listing of the loaded store |
| AtakiImporter.StoreRecords | src/test/java/com/example/atakiprojekt/CSVParserService.java:54-88 | pass 1 ends with the store, map and abort flag `Load` computes over the records in file order |
| AtakiImporter.StoreRecord | src/test/java/com/example/atakiprojekt/CSVParserService.java:55-87 | a stored trimmed code is skipped; a short headquarters code throws before anything is saved; any other record is saved, a headquarters filed under its prefix |
| AtakiImporter.LinkBranches | src/test/java/com/example/atakiprojekt/CSVParserService.java:90-98 | pass 2 ends with the store and abort flag `LinkPass` computes over the listing |
| AtakiImporter.LoadKeepsStoredRows | src/test/java/com/example/atakiprojekt/CSVParserService.java:56-59 | pass 1 never overwrites a row already stored |
| AtakiImporter.LoadAddsFirstRecords | src/test/java/com/example/atakiprojekt/CSVParserService.java:54-88 | each row pass 1 adds is the first record of the file with that code |
| AtakiImporter.LoadStoresEveryRecord | src/test/java/com/example/atakiprojekt/CSVParserService.java:54-88 | unless pass 1 throws, the code of every record is stored afterwards: a record whose code was not yet stored is saved |
| AtakiImporter.LoadFilesHeadquarters | src/test/java/com/example/atakiprojekt/CSVParserService.java:83-87 | pass 1 keeps the map valid (each entry a stored headquarters filed under its own prefix), adds no link, and files every headquarters it adds |
| AtakiImporter.LaterHeadquartersReplacesEarlier | src/test/java/com/example/atakiprojekt/CSVParserService.java:83-85 | of two headquarters with one prefix in a file, the later one is the one filed |
| AtakiImporter.LinkPassClosedForm | src/test/java/com/example/atakiprojekt/CSVParserService.java:90-97 | when no listed branch code is short, pass 2 completes and links exactly the linkable listed rows, in any listing order |
| AtakiImporter.ShortBranchAborts | src/test/java/com/example/atakiprojekt/CSVParserService.java:92 | a branch code shorter than eight characters anywhere in the listing makes pass 2 throw |
| AtakiImporter.LinksNameBatchHeadquarters | src/test/java/com/example/atakiprojekt/CSVParserService.java:92-95 | every row pass 2 links names a stored headquarters with the same prefix |
| AtakiImporter.LinkedKeepsRows | src/test/java/com/example/atakiprojekt/CSVParserService.java:90-98 | linking keeps every row under its own code, and a row stored before the import changes at most its link |
| AtakiImporter.NoShortBranchMeansOrderFree | src/test/java/com/example/atakiprojekt/CSVParserService.java:47-103 | when pass 1 completes and no stored branch code is short, the import completes whatever the `findAll` order; each linkable branch is linked to its prefix's batch headquarters, which is stored with the same prefix, and rows stored before keep every field but the link |

## Left out

- HTTP shaping is not modelled: response bodies, status objects, message strings and JSON field order. Each endpoint answers with a datatype whose constructors stand for the responses, with the status in a comment.
- JPA and Hibernate are not modelled: the persistence context, cascading merges and lazy loading. The store is a map from key to row, and a link is the code of the linked row.
- The order in which the database lists query results is not modelled; every listing is any order of exactly the matching rows.
- Logging (`System.out`, `System.err`) and the unused `errorResponse` maps in both services are left out. They have no effect on state.
- `String.trim` and `toUpperCase` are modelled on ASCII: trim strips characters up to `' '`, and upper-casing maps only `a`-`z`. Locale-dependent and non-ASCII case mappings are left out.
- A headquarters object nested in a request body is not modelled. JPA would save it as the link wherever the controller does not overwrite it. In the model a request carries no link, so the only links are the ones the controllers and services set.
- The strict application's own entity class `SwiftCode` is not modelled separately. It has the same fields and constructor as the other application's entity. The one mapping difference is the link: the other application's link cascades merges (src/main/java/com/example/InternSwiftCodesProject/SwiftCode.java:24), while the strict link does not (src/main/java/com/example/atakiprojekt/SwiftCode.java:25).
- `SWIFTCodeSimpleDTO` is not modelled: the country endpoints answer with the listed rows themselves.
- src/main/java/com/example/InternSwiftCodesProject/DTO/SwiftCodeWithBranchesDTO.java is not part of this model. The strict application's class of the same name stands for both applications' response with branches.
- CSV parsing and file I/O are not modelled: the importer takes already parsed records. Startup loading and the upload controllers are out of scope, and so are the CSV services of the two main trees.
- The importer's branch for a null address (`Brak adresu`) is left out because it cannot run: the address was already trimmed, so it is never null. A missing column throws in the parser, and that is not modelled.
- Concurrency is not modelled: two requests racing between a lookup and a save.
- AtakiController.GetSwiftCodesByCountry: the country name is stated only as that of the first listed row. The model does not fix which row the database lists first.
- AtakiService.SaveSwiftCode: the model assumes each claimed orphan's save succeeds. The strict link does not cascade, and the orphan is saved pointing at a headquarters that is saved only afterwards (src/main/java/com/example/atakiprojekt/SWIFTCodeService.java:157-165). Hibernate may therefore reject that save as referring to an unsaved row, and the request would end in a 500 with nothing saved. The model does not capture this.
- Entity.Prefix: lengths and the eight-character prefix are counted in Unicode characters, as Dafny strings count them, not in Java's UTF-16 units. A code with a character outside the Basic Multilingual Plane is measured shorter than Java measures it.
- InternController.FirstFailure: the address and code length checks count Unicode characters, not UTF-16 units. So `😀A` is a 2-character address and rejected, while Java counts 3 and accepts it. A code such as `ABCD😀😀` gets "Invalid SWIFT code format" instead of "Invalid characters".
- AtakiController.Insert: the 8-or-11 length check counts Unicode characters, not UTF-16 units. So `ABC😀XXX` answers `InvalidCodeFormat`, while Java counts 8 and saves it.
- InternController.GetSwiftCodeDetails: the path length check counts Unicode characters, not UTF-16 units. Input outside the Basic Multilingual Plane is measured differently.
- AtakiController.GetSwiftCodeDetails: the raw path length check counts Unicode characters, not UTF-16 units. Input outside the Basic Multilingual Plane is measured differently.
- AtakiImporter.ParseAndStoreSwiftData: the order-independence of pass 2 is proved separately in NoShortBranchMeansOrderFree, and only for stores with no short branch code. With a short branch code, how many branches get linked before the throw depends on the listing order.

## Findings

| source | as written | input that shows it | evidently intended | confidence | as-written member | corrected member |
|---|---|---|---|---|---|---|
| src/main/java/com/example/InternSwiftCodesProject/services/SWIFTCodeService.java:180-190 | the orphan scan of a new headquarters takes every unlinked row starting with its prefix, headquarters included | store holding only `ABCDEXXXXXX`; insert `ABCDEXXX` (Poland, a bank name, an address): accepted, and `ABCDEXXXXXX` becomes linked to `ABCDEXXX` | only the headquarters' own orphan branches are claimed, and no headquarters is ever linked | not executed | InternFindings.HeadquartersClaimedAsOrphan | InternFindings.FixedScanKeepsHeadquartersUnlinked |
| src/main/java/com/example/atakiprojekt/SWIFTCodeService.java:151-160 | the strict application's service runs the same orphan scan, and its controller checks no headquarters for a headquarters code; this assumes the claimed row's save succeeds, which the strict link's missing cascade puts in doubt (see "## Left out", AtakiService.SaveSwiftCode) | empty store; insert `ABCDEXXXXXX`, then `ABCDEXXX`: both accepted, and `ABCDEXXXXXX` becomes linked to `ABCDEXXX` | only the headquarters' own orphan branches are claimed, and no headquarters is ever linked | not executed | AtakiController.HeadquartersClaimedAsOrphan | InternFindings.FixedScanKeepsHeadquartersUnlinked |
| src/main/java/com/example/InternSwiftCodesProject/controllers/SWIFTCodeController.java:191-229 | a branch looks up exactly `prefix + XXX`, while a new headquarters claims every orphan starting with its prefix, so the two disagree for headquarters codes shorter than 11 characters | empty store; `ABCDEXXXB1` then `ABCDEXXX` leaves the branch linked, while `ABCDEXXX` then `ABCDEXXXB1` leaves it an orphan | a branch's link does not depend on the order of inserts | not executed | InternFindings.LinkDependsOnInsertOrder | InternFindings.FixedLinkingIsOrderIndependent |
| src/main/java/com/example/atakiprojekt/SWIFTCodeController.java:45 | the row is found by the upper-cased path, but its branches are fetched by the raw path | a headquarters `ABCDEFGHXXX` with a linked branch; `GET /v1/swift-codes/abcdefghxxx` shows the headquarters with an empty branch list | the branches of the row that was found | not executed | AtakiController.LowerCasePathListsNoBranches | AtakiController.GetSwiftCodeDetailsFixed |
