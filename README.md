# SPDX tag/value tools, modelled in Dafny

This project models the core of the SPDX tools: the reader that builds an SPDX 2.1
document from a tag/value file, and the pieces around it. It proves properties of that
model.

- **The tag/value builder** (`BuildDocument`). It is a class with the open-entity flags,
  the `last*` handles and the pending relationship, annotation and dependency lists. Each
  `(tag, value)` pair is normalised and then routed, in the fixed priority order
  annotation > file > snippet > package > extracted license, to the builder of the open
  entity. Otherwise the open definitions are left and the document level reads the pair.
  The end of the input (`exit`) resolves file dependencies, snippet files, relationships,
  annotations and the single-package DESCRIBES default.
  - The document container is an arena: the files, packages and snippets are sequences,
    and the document's element list holds handles into them.
  - The embedded regex parsers are modelled exactly, run by run over the value. These
    are the checksum, relationship, range, external document reference and external
    reference parsers.
- **The tag/value printer's line formats** (`CommonCode`). Each is paired with its parser
  by a round-trip lemma.
- **The entity value logic** of `SpdxPackage`, `SpdxFile` and `ExternalDocumentRef`:
  constructor defaults, appends, SHA-1 lookup, orderings, the file-type tag bijection and
  the `verify` rules.
- **The package verification code** (`VerificationCodeGenerator`): path normalisation,
  checksum filtering, sorting, and the hexadecimal digest form.
- **The identifier, counter and namespace helpers** of `SPDXDocument`.
- **The comparers** `SpdxItemComparer` and `SpdxPackageComparer`:
  - their state flags and per-document-pair result tables;
  - the set-difference loops;
  - the external-reference comparator;
  - the in-place sort and merge walks over arrays.
- **Two compare-sheet columns** (`FileArtifactOfSheet`, `FileContributorsSheet`) and
  `LicenseJsonTOC.getLicenseIds`.

Code that changes state in the source is imperative here:
- the builder is a class whose methods carry `modifies` clauses;
- the comparers are classes too;
- the document's counters live in a class;
- the loops of the verification code, of the comparers, of the sheets and of the table
  of contents are `while` loops with invariants;
- the sort of external references works in place on an `array`.

Each method is proved against a specification function, and the properties are proved
about those functions.

The model makes these choices:
- Java `null` becomes `Option`, and thrown exceptions become `Result` or an error
  message.
- Iteration over a `HashMap` or `HashSet` takes the entries in no particular order (`:|`).
- The tag names form a closed enumeration.
- The foreign collaborators are parameters (`Env`, `Catalog`, `Helpers`): license parsing,
  the `fromTag` tables, `SpdxVerificationHelper`, SHA-1, the clock and UUIDs.
- `addRelationships` does not check that the related ID resolves, as in the source: an
  unknown related ID gives a relationship whose related element is missing.
- Where the specification and the code disagree, the model follows the code. The places
  where the code itself is evidently wrong are listed under "Findings". The model proves
  each corrected behaviour and uses the corrected form, and it keeps the code as written
  beside it.

Module per source file: `tagbuilder.dfy` (TagBuilder), `tagentities.dfy` (TagEntities),
`tagparse.dfy` (TagParsers), `tagstore.dfy` (TagStore), `tagresolve.dfy` (TagResolution),
`tags.dfy` (Tags), `tagprint.dfy` (TagPrinter), `spdxtypes.dfy` (SpdxTypes), `spdxfile.dfy`
(SpdxFileModel), `spdxpackage.dfy` (SpdxPackageModel), `extdocref.dfy` (ExternalDocRefModel),
`spdxdoc.dfy` (SpdxDocumentModel), `verifcode.dfy` (VerificationCodeGen), `itemcomparer.dfy`
(ItemComparison), `extrefs.dfy` (ExternalRefComparison), `pkgcomparer.dfy`
(PackageComparison), `comparesheets.dfy` (CompareSheets), `licensetoc.dfy` (LicenseToc),
plus `jstrings.dfy` (JavaStrings: the `java.lang.String` operations used) and `wrappers.dfy`.

## Model

| member | source | states |
|---|---|---|
| TagParsers.NormaliseTag | src/org/spdx/tag/BuildDocument.java:340 | the tag as looked up is the trimmed tag followed by exactly one space, and normalising twice changes nothing |
| TagParsers.NormaliseTagIdempotent | src/org/spdx/tag/BuildDocument.java:340 | normalising an already normalised tag gives it back |
| TagParsers.CleanValue | src/org/spdx/tag/BuildDocument.java:1139-1144 | no-break spaces become spaces, then the value is trimmed, then one left-to-right pass removes `<text>` and one removes `</text>`; the result holds no no-break space and is never longer than the raw value (markers are removed after trimming, so a space next to one can remain, and a marker split by another can re-form) |
| TagParsers.CleanValueOfPlain | src/org/spdx/tag/BuildDocument.java:1139-1144 | a trimmed value without no-break spaces or text markers reaches the builders unchanged |
| TagParsers.ParseChecksum | src/org/spdx/tag/BuildDocument.java:986-996 | the result is the two groups of the first match: a known algorithm tag and a value; a value with no match, or with an unknown algorithm, is an error |
| TagParsers.ChecksumRoundTrip | src/org/spdx/tag/BuildDocument.java:986-996 | two whitespace-free tokens joined by one space are read back as the checksum they spell |
| TagParsers.ParseRelationship | src/org/spdx/tag/BuildDocument.java:757-768 | the result is the element ID, type and related ID of the first three-token match; an unknown relationship type is an error |
| TagParsers.RelationshipRoundTrip | src/org/spdx/tag/BuildDocument.java:757-768 | three whitespace-free tokens joined by single spaces are read back as the relationship they spell |
| TagParsers.ParseRange | src/org/spdx/tag/BuildDocument.java:432-475 | no `d:d` match in the trimmed value is `Invalid snippet <kind> range: `; a first number outside 32 bits is `Non integer start to snippet <kind> offset: `, and otherwise a second one outside 32 bits is `Non integer end to snippet <kind> offset: `; when both read, the result is exactly the two numbers of the first match |
| TagParsers.ParseByteRange | src/org/spdx/tag/BuildDocument.java:457-475 | a byte range reads as a pair of byte-offset pointers, or fails as the range parser does |
| TagParsers.ParseLineRange | src/org/spdx/tag/BuildDocument.java:432-450 | a line range reads as a pair of line-number pointers, or fails as the range parser does |
| TagParsers.RangeRoundTrip | src/org/spdx/tag/BuildDocument.java:432-475 | `start:end` printed from non-negative 32-bit numbers is read back as those numbers |
| TagParsers.ParseExternalDocumentRef | src/org/spdx/tag/BuildDocument.java:810-819 | the result takes the ID from group 1, the namespace from group 2 and a SHA1 checksum from group 3 of the first match; no match is an error |
| TagParsers.ExternalDocRefRoundTrip | src/org/spdx/tag/BuildDocument.java:810-819 | the printed shape `id uri SHA1: sha1` of whitespace-free parts is read back as the reference it describes |
| TagParsers.ParseExternalRef | src/org/spdx/tag/BuildDocument.java:945-978 | a value with no match is a format error; an unknown category (trimmed) is a category error; a type that is neither listed nor valid URI syntax is a type error; otherwise the result is the known category, the listed or namespace-built type URI and group 3 as locator, with no comment |
| TagParsers.ExternalRefRoundTrip | src/org/spdx/tag/BuildDocument.java:945-978 | a printed `category type locator` value (the shape of CommonCode.java:660-661) made of blank-free category and type and a one-line locator, with a known category and a valid type, reads back as that reference |
| TagParsers.ParseVerificationCode | src/org/spdx/tag/BuildDocument.java:839-850 | without a `(` the whole value is the code and nothing is excluded; otherwise the trimmed code before `(` and the trimmed `,`-separated names after it, with `)` removed |
| TagParsers.ParseSourceUrls | src/org/spdx/tag/BuildDocument.java:495-503 | the URLs are the `,`-separated parts of the value, each trimmed |
| Tags.AnnotationTagsShared | src/org/spdx/tag/BuildDocument.java:245-331 | every entity's tag set except the extracted license's holds the annotation tags, so an open annotation takes precedence for them |
| TagEntities.Route | src/org/spdx/tag/BuildDocument.java:342-364 | the corrected dispatch: exactly one builder is chosen, the first in priority order whose flag is set and whose tag set holds the tag; a SnippetSPDXID always goes to the document level |
| TagEntities.RouteAgreesElsewhere | src/org/spdx/tag/BuildDocument.java:342-364 | the corrected dispatch differs from the code as written only for SnippetSPDXID |
| TagEntities.RouteNeedsOpenEntity | src/org/spdx/tag/BuildDocument.java:342-364 | an entity builder is chosen only while that entity's flag is set |
| TagEntities.SnippetIdAlwaysStartsSnippet | src/org/spdx/tag/BuildDocument.java:342-364 | with the correction, a SnippetSPDXID reaches the document level whatever is open |
| TagEntities.RouteAsWritten | src/org/spdx/tag/BuildDocument.java:342-364 | as written: a tag goes to the snippet builder exactly when no open annotation or file takes it, a snippet is open and the tag is a snippet tag, SnippetSPDXID included |
| TagEntities.SecondSnippetIdRenamesAsWritten | src/org/spdx/tag/BuildDocument.java:346-380 | as written, a SnippetSPDXID while a snippet is open goes to that snippet, whose builder only sets its SPDX ID |
| TagEntities.NewDocument | src/org/spdx/tag/BuildDocument.java:536-556 | a new document container carries the given namespace and version, and nothing else |
| TagEntities.NewSnippet | src/org/spdx/tag/BuildDocument.java:676-685 | a new snippet has only its SPDX ID |
| TagEntities.NewAnnotation | src/org/spdx/tag/BuildDocument.java:85-109 | a new pending annotation has only its annotator |
| TagEntities.NewTagFile | src/org/spdx/tag/BuildDocument.java:665-672 | a file as the reader creates it has its name and empty lists |
| TagEntities.NewTagPackage | src/org/spdx/tag/BuildDocument.java:645-658 | a package as the reader creates it has its name and the defaults of the eight-argument constructor |
| TagEntities.ParseLicense | src/org/spdx/tag/BuildDocument.java:1001-1064 | a license expression is stored as the parser (a parameter) reads it, or the parser's error is returned |
| TagEntities.ApplyAnnotationProperty | src/org/spdx/tag/BuildDocument.java:735-750 | each annotation tag sets only its own field; only an unknown annotation type is an error |
| TagEntities.ReadFileType | src/org/spdx/tag/BuildDocument.java:1012-1020 | a FileType value is its tag's file type; failing that, the upper-cased tag's file type with a warning; unknown either way is an error |
| TagEntities.ReadFileTypeOfTag | src/org/spdx/tag/BuildDocument.java:1012-1020 | the printed tag of a file type is read back as that type with no warning |
| TagEntities.SetFileText | src/org/spdx/tag/BuildDocument.java:1001-1064 | a text tag sets exactly its own file field; any other tag leaves the file unchanged |
| TagEntities.ApplyFileProperty | src/org/spdx/tag/BuildDocument.java:1001-1064 | a file tag sets its own field, appends to its own list, or is an error for an unreadable value, with the warnings the source gives |
| TagEntities.FileListsGrowAtEnd | src/org/spdx/tag/BuildDocument.java:1001-1064 | file types, checksums, seen licenses and contributors grow by exactly one element at the end under their own tag, and each list is untouched by every other tag |
| TagEntities.FileFieldsOverwrite | src/org/spdx/tag/BuildDocument.java:1001-1064 | each single-valued file field is overwritten by its own tag and kept by every other tag |
| TagEntities.ApplySnippetProperty | src/org/spdx/tag/BuildDocument.java:376-425 | each snippet tag sets its own field; an unreadable range or license is an error; a seen license replaces the whole list with that one license |
| TagEntities.ReadFilesAnalyzed | src/org/spdx/tag/BuildDocument.java:922-929 | FilesAnalyzed reads `true` or `false` in any letter case, and anything else is an error |
| TagEntities.SetPackageText | src/org/spdx/tag/BuildDocument.java:825-936 | a text tag sets exactly its own package field; any other tag leaves the package unchanged |
| TagEntities.ApplyPackageProperty | src/org/spdx/tag/BuildDocument.java:825-936 | the package tag sets its field, appends to its list, or gives an error for an unreadable value; the verification code is split as written |
| TagEntities.PackageListsGrowAtEnd | src/org/spdx/tag/BuildDocument.java:825-936 | checksums and license information from files grow by one element at the end under their own tag, and are untouched by every other tag |
| TagEntities.ApplyExtractedLicenseProperty | src/org/spdx/tag/BuildDocument.java:483-510 | each extracted-license tag sets its own field; the license text tag is accepted and ignored |
| TagEntities.FindExtractedLicense | src/org/spdx/tag/BuildDocument.java:636-644 | the position found is that of the first extracted license with the ID, and there is none when no license has it |
| TagEntities.ApplyCreationInfo | src/org/spdx/tag/BuildDocument.java:585-614 | a creator is appended and the other creation tags set their field; a missing record is first created with the source's initial creators |
| TagStore.FindElementById | src/org/spdx/tag/BuildDocument.java:1205-1236 | the element found carries the ID, and no registered element does when none is found |
| TagStore.FindDocument | src/org/spdx/tag/BuildDocument.java:1205-1231 | the document is always found by its own SPDX ID |
| TagStore.FindSameShape | src/org/spdx/tag/BuildDocument.java:1205-1231 | changing element fields other than the IDs changes no lookup |
| TagStore.Resolve | src/org/spdx/tag/BuildDocument.java:1236-1240 | a pending relationship becomes a relationship to the element with its related ID, or to a missing element when none has it |
| TagStore.AddRelationship | src/org/spdx/tag/BuildDocument.java:1229-1240 | one relationship is appended to the element with its ID, and nothing else changes; with no such element there is a warning naming the ID |
| TagStore.AddRelationships | src/org/spdx/tag/BuildDocument.java:1224-1242 | each relationship is added in turn, and the warnings come in the same order |
| TagStore.RelationshipWarningsMeaning | src/org/spdx/tag/BuildDocument.java:1229-1240 | the warnings are one per relationship whose element ID is unknown, naming the ID, in order |
| TagStore.AddRelationshipAt | src/org/spdx/tag/BuildDocument.java:1229-1240 | seen from any element, one relationship adds exactly the relationship that names that element |
| TagStore.AddRelationshipsMeaning | src/org/spdx/tag/BuildDocument.java:1224-1242 | each element gains exactly the relationships naming it, after its own and in order, and nothing else about it changes; one warning for each relationship with an unknown ID |
| TagStore.AddAnnotation | src/org/spdx/tag/BuildDocument.java:1199-1217 | an annotation without a target ID, or with an unknown one, gives the source's warning; otherwise it is appended after the target's annotations |
| TagStore.AddAnnotations | src/org/spdx/tag/BuildDocument.java:1194-1218 | each annotation is added in turn |
| TagStore.AnnotationWarningsMeaning | src/org/spdx/tag/BuildDocument.java:1199-1217 | the warnings are those of each annotation in turn: a missing or unknown target ID |
| TagStore.AddAnnotationAt | src/org/spdx/tag/BuildDocument.java:1199-1217 | seen from any element, one annotation adds exactly the annotation that names that element |
| TagStore.AddAnnotationsMeaning | src/org/spdx/tag/BuildDocument.java:1194-1218 | each element gains exactly the annotations naming it, after its own and in order, and nothing else about it changes |
| TagStore.DocumentReceivesItsOwn | src/org/spdx/tag/BuildDocument.java:1224-1242 | a relationship or annotation naming the document lands on the document |
| TagStore.FilesAmong | src/org/spdx/tag/BuildDocument.java:1262 | the files among the elements, in order |
| TagStore.FileReferences | src/org/spdx/tag/BuildDocument.java:1262 | every registered file, in order of registration |
| TagStore.AddDependents | src/org/spdx/tag/BuildDocument.java:1265-1279 | the files with recorded dependencies are those before together with every dependent of the matched file |
| TagStore.AddDependentsSound | src/org/spdx/tag/BuildDocument.java:1265-1279 | the only file added to any recorded list is the matched file, and only to the lists of its dependents; the rest is what was recorded before |
| TagStore.PassLeavesUnmatchedNames | src/org/spdx/tag/BuildDocument.java:1262-1289 | a dependency name stays unmatched exactly when no file has that name, and its list is untouched |
| TagStore.PassLeavesUnmatchedIds | src/org/spdx/tag/BuildDocument.java:1280-1288 | a snippet file ID stays unmatched exactly when no file has that ID, and its list is untouched |
| TagStore.PassSnippetsSound | src/org/spdx/tag/BuildDocument.java:1280-1288 | each file a snippet list was handed to carries the ID the list was waiting for, and it got the whole list |
| TagStore.PassSnippetsComplete | src/org/spdx/tag/BuildDocument.java:1280-1288 | every snippet file ID that some file has is handed, with its whole list, to a file with that ID |
| TagStore.PassDependenciesSound | src/org/spdx/tag/BuildDocument.java:1265-1279 | each dependency recorded is a file whose name some dependent was waiting for |
| TagStore.WithDependencies | src/org/spdx/tag/BuildDocument.java:1290-1298 | a file with recorded dependencies gets exactly those dependencies, in order; the other files keep theirs |
| TagStore.SnippetWarningsNameIds | src/org/spdx/tag/BuildDocument.java:1312-1327 | corrected: the warnings are empty exactly when no snippet file ID is left; every unknown ID is named on a tab-indented line and every line after the header names one |
| TagStore.SnippetWarningsLoseIdAsWritten | src/org/spdx/tag/BuildDocument.java:1320-1327 | as written, in a document whose dependencies all resolved, an unknown snippet file ID gets a header and no line naming it |
| TagStore.ContainerPackages | src/org/spdx/tag/BuildDocument.java:1170 | the packages listed are packages of the document, and there are none when the document has none |
| TagStore.SinglePackageDefault | src/org/spdx/tag/BuildDocument.java:1169-1188 | corrected: a document with a single package that it does not describe gets the default DESCRIBES relationship to it; nothing else changes |
| TagStore.SinglePackageDefaultAsWritten | src/org/spdx/tag/BuildDocument.java:1169-1188 | as written: an error exactly when there are no packages (the first element of an empty list), and otherwise no change |
| TagStore.SinglePackageLeftUndescribedAsWritten | src/org/spdx/tag/BuildDocument.java:1169-1188 | a document with one package and no relationships stays undescribed as written, and is described after the correction |
| TagStore.SinglePackageDefaultSameShape | src/org/spdx/tag/BuildDocument.java:1169-1188 | the default relationship changes no record and no SPDX ID |
| TagResolution.RunPass | src/org/spdx/tag/BuildDocument.java:1262-1289 | the single pass over every registered file, in order of registration, both for dependencies and for snippet files |
| TagResolution.SetDependencies | src/org/spdx/tag/BuildDocument.java:1290-1298 | each file with recorded dependencies gets them, and the others keep theirs |
| TagResolution.BindSnippets | src/org/spdx/tag/BuildDocument.java:1299-1309 | every snippet on some file's list is bound to one such file (the files are taken in no particular order), nothing else about it changes, and a snippet on no list is untouched |
| TagResolution.BindList | src/org/spdx/tag/BuildDocument.java:1304-1308 | the snippets on one file's list are bound to that file |
| TagResolution.Announce | src/org/spdx/tag/BuildDocument.java:1312-1327 | the header and one tab-indented line per key, in no particular order, when there is something to announce; nothing otherwise |
| TagResolution.ResolveRelationships | src/org/spdx/tag/BuildDocument.java:1229-1241 | the loop over the pending relationships computes `TagStore.AddRelationships` |
| TagResolution.ResolveAnnotations | src/org/spdx/tag/BuildDocument.java:1199-1217 | the loop over the pending annotations computes `TagStore.AddAnnotations` |
| TagBuilder.ReadDataLicense | src/org/spdx/tag/BuildDocument.java:520-528 | the data license is the listed license with that ID, or an extracted license with that ID and a placeholder text |
| TagBuilder.Pushed | src/org/spdx/tag/BuildDocument.java:413-416 | queueing an optional item appends it when present and otherwise leaves the list unchanged |
| TagBuilder.ReplaceOrAppend | src/org/spdx/tag/BuildDocument.java:1111-1135 | the list has x at position i, either in place of the element there or appended just past the end |
| TagBuilder.NamespacedDocument | src/org/spdx/tag/BuildDocument.java:536-556 | the document a DocumentNamespace creates carries that namespace and the version, data license and name read so far |
| TagBuilder.StoreWfGrows | src/org/spdx/tag/BuildDocument.java:694-727 | adding files and snippets keeps the store well formed as long as the packages keep their files |
| TagBuilder.PassedCore | src/org/spdx/tag/BuildDocument.java:1250-1328 | the dependency pass keeps every handle of the builder valid |
| TagBuilder.Builder.constructor | src/org/spdx/tag/BuildDocument.java:245-331 | a new builder has nothing open, nothing pending, no warnings and no document |
| TagBuilder.Builder.StartAnnotation | src/org/spdx/tag/BuildDocument.java:887-892 | Annotator queues the open annotation and opens a new one with only the annotator |
| TagBuilder.Builder.QueueRelationship | src/org/spdx/tag/BuildDocument.java:893-897 | Relationship queues the open relationship; the value as read becomes the new one, and a value that does not read keeps the old one open |
| TagBuilder.Builder.CommentRelationship | src/org/spdx/tag/BuildDocument.java:898-902 | RelationshipComment sets the comment of the open relationship, or is an error exactly when there is none |
| TagBuilder.Builder.BuildShared | src/org/spdx/tag/BuildDocument.java:887-902 | Annotator pushes the open annotation and opens a new one for the value; Relationship pushes the pending relationship and makes the parsed one pending, or keeps the old one and returns the parser's error; RelationshipComment sets the pending relationship's comment, and is `Relationship comment found outside of a relationship: ` when none is pending; each tag leaves the other fields alone |
| TagBuilder.Builder.AddLastFile | src/org/spdx/tag/BuildDocument.java:694-707 | with no open file nothing changes; otherwise the file goes into the last package if there is one and into the document otherwise, with a warning when it has no SPDX ID; no file is open afterwards |
| TagBuilder.Builder.AddLastSnippet | src/org/spdx/tag/BuildDocument.java:714-727 | with no open snippet nothing changes; otherwise the snippet goes into the document, with a warning when it has no SPDX ID; no snippet is open afterwards |
| TagBuilder.Builder.AddLastPackage | src/org/spdx/tag/BuildDocument.java:651-657 | PackageName attaches the previous package to the document, with a warning when it has no SPDX ID |
| TagBuilder.Builder.CheckAnalysisNull | src/org/spdx/tag/BuildDocument.java:770-779 | afterwards there is a document exactly when there is no error; an existing document is kept; without one, a version below SPDX-2.0 gets a document with a generated namespace and anything else is an error |
| TagBuilder.Builder.BuildAnnotation | src/org/spdx/tag/BuildDocument.java:735-750 | the open annotation takes the property, or, on an unknown annotation type, an error leaves it unchanged |
| TagBuilder.Builder.BuildProject | src/org/spdx/tag/BuildDocument.java:1103-1137 | ProjectName appends a project and makes it the last one; ProjectHomePage and ProjectURI update the last project, or are errors without one; any other tag is an error |
| TagBuilder.Builder.AddFileDependency | src/org/spdx/tag/BuildDocument.java:1088-1097 | the open file is recorded under the dependency name, for resolution at the end of the input |
| TagBuilder.Builder.SetFileProperty | src/org/spdx/tag/BuildDocument.java:1001-1064 | the stored file takes the property as `TagEntities.ApplyFileProperty` defines it, with the warnings it gives |
| TagBuilder.Builder.BuildFile | src/org/spdx/tag/BuildDocument.java:1001-1064 | a dependency is always accepted; a tag that is no file property, no shared tag and no project tag is an error |
| TagBuilder.Builder.SetSnippetProperty | src/org/spdx/tag/BuildDocument.java:376-425 | the stored snippet takes the property, or an unreadable range or license is an error and changes nothing |
| TagBuilder.Builder.AddSnippetDependency | src/org/spdx/tag/BuildDocument.java:381-389 | the open snippet is recorded under the file ID it is from, for resolution at the end of the input |
| TagBuilder.Builder.BuildSnippet | src/org/spdx/tag/BuildDocument.java:376-425 | a snippet file ID is always accepted; a tag that is no snippet property and no shared tag is an error |
| TagBuilder.Builder.SetPackageProperty | src/org/spdx/tag/BuildDocument.java:825-936 | the stored package takes the property, or a value that does not read is an error and changes nothing |
| TagBuilder.Builder.AddExternalRefTag | src/org/spdx/tag/BuildDocument.java:876-878 | ExternalRef appends the value as read to the package's references, or is the parser's error and changes nothing |
| TagBuilder.Builder.CommentExternalRef | src/org/spdx/tag/BuildDocument.java:879-887 | ExternalRefComment sets the comment of the last external reference; it is an error without one, and for a reference whose comment is already set |
| TagBuilder.Builder.BuildPackage | src/org/spdx/tag/BuildDocument.java:825-936 | FileName and SnippetSPDXID are always accepted; a tag that is no package tag is an error |
| TagBuilder.Builder.BuildPackageRecord | src/org/spdx/tag/BuildDocument.java:825-886 | a package property replaces the open package by the property's outcome, or returns its error and changes nothing; ExternalRef appends the parsed reference and makes it the last one, or returns the parser's error and changes nothing; ExternalRefComment has the outcome of `ExternalRefCommentError` and `ExternalRefCommented` |
| TagBuilder.ExternalRefCommentError | src/org/spdx/tag/BuildDocument.java:879-885 | with no last external reference the comment is `External reference comment found without an external reference: `; otherwise it is `Second reference comment found for the same external reference: ` exactly when that reference already has a non-empty comment, and accepted when its comment is missing or empty |
| TagBuilder.ExternalRefCommented | src/org/spdx/tag/BuildDocument.java:879-886 | an accepted comment becomes the comment of the last external reference and changes no other package or reference; a rejected one changes nothing |
| TagBuilder.Builder.BuildExtractedLicense | src/org/spdx/tag/BuildDocument.java:483-510 | the open extracted license takes the property; the license text tag is ignored |
| TagBuilder.Builder.SetSpecVersion | src/org/spdx/tag/BuildDocument.java:514-519 | SPDXVersion is kept for a document still to come and set on the document if there is one |
| TagBuilder.Builder.SetDataLicense | src/org/spdx/tag/BuildDocument.java:520-531 | DataLicense is kept and set on the document if there is one |
| TagBuilder.Builder.SetDocumentName | src/org/spdx/tag/BuildDocument.java:532-536 | DocumentName is kept and set on the document if there is one |
| TagBuilder.Builder.CreateDocument | src/org/spdx/tag/BuildDocument.java:536-556 | DocumentNamespace creates the document from what was read so far; a second namespace is an error that changes nothing |
| TagBuilder.Builder.BuildDocumentHeader | src/org/spdx/tag/BuildDocument.java:514-556 | a version, data license or name never fails; a namespace fails exactly when there is already a document; a document SPDX ID other than `SPDXRef-DOCUMENT` is an error |
| TagBuilder.Builder.AddExternalDocRef | src/org/spdx/tag/BuildDocument.java:557-559 | ExternalDocumentRef appends the reference as read to the document's, or is the parser's error |
| TagBuilder.Builder.SetCreationInfo | src/org/spdx/tag/BuildDocument.java:585-614 | a creation tag updates the creation information as `TagEntities.ApplyCreationInfo` defines it |
| TagBuilder.Builder.AddReviewer | src/org/spdx/tag/BuildDocument.java:618-623 | Reviewer appends a review dated now and makes it the last review |
| TagBuilder.Builder.SetReview | src/org/spdx/tag/BuildDocument.java:624-635 | ReviewDate and ReviewComment set the date or comment of the last review, and each is an error when there is none |
| TagBuilder.Builder.OpenExtractedLicense | src/org/spdx/tag/BuildDocument.java:636-645 | LicenseID opens the document's extracted license with that ID when there is one, and otherwise appends a new one with a placeholder text; no duplicate is added |
| TagBuilder.Builder.BuildDocumentRecord | src/org/spdx/tag/BuildDocument.java:565-644 | the record tags that need the document: external document references, creation information, comment, reviews and extracted licenses |
| TagBuilder.Builder.OpenPackage | src/org/spdx/tag/BuildDocument.java:645-658 | PackageName attaches the last package and opens a new one with the reader's defaults |
| TagBuilder.Builder.OpenFile | src/org/spdx/tag/BuildDocument.java:659-672 | FileName attaches the open file and opens a new one |
| TagBuilder.Builder.OpenSnippet | src/org/spdx/tag/BuildDocument.java:676-685 | SnippetSPDXID attaches the open snippet and opens a new one with that ID |
| TagBuilder.Builder.BuildDocumentElement | src/org/spdx/tag/BuildDocument.java:645-685 | the element tags at document level start a package, a file (in the last package, if any) or a snippet |
| TagBuilder.Builder.BuildDocumentProperties | src/org/spdx/tag/BuildDocument.java:513-686 | an unrecognised tag is an error, and an annotation tag at document level is the source's "found outside of an annotation" error |
| TagBuilder.Builder.BuildDocumentContent | src/org/spdx/tag/BuildDocument.java:565-686 | the tags that need the document first make sure there is one; an element tag never fails once there is a document |
| TagBuilder.Builder.BuildDocumentEntry | src/org/spdx/tag/BuildDocument.java:565-686 | once there is a document, an element tag never fails |
| TagBuilder.Builder.LeaveDefinitions | src/org/spdx/tag/BuildDocument.java:352-364 | leaving the definitions attaches the open file and the open snippet, clears the annotation, file, package and snippet flags, and leaves the extracted-license flag alone |
| TagBuilder.Builder.EndDefinitions | src/org/spdx/tag/BuildDocument.java:359-362 | the annotation, file, package and snippet flags are cleared, and the invariant holds again |
| TagBuilder.Builder.BuildDocument | src/org/spdx/tag/BuildDocument.java:339-365 | every pair keeps the builder's invariant: handles stay in range, each open flag has its entity, and a file and a snippet are never open together; a pair routed to the extracted license never fails |
| TagBuilder.Builder.ApplyPass | src/org/spdx/tag/BuildDocument.java:1259-1311 | the single pass over the registered files: dependents get exactly the files of the names they wait for, snippets are bound to the file with their file ID, and only the unmatched names and IDs stay recorded |
| TagBuilder.Builder.ResolveDependencies | src/org/spdx/tag/BuildDocument.java:1250-1328 | corrected: after the pass, one header and one line per unmatched dependency name, and one header and one line per unmatched snippet file ID |
| TagBuilder.Builder.AnnounceMissing | src/org/spdx/tag/BuildDocument.java:1312-1327 | corrected: the warnings name every unmatched dependency name and every unmatched snippet file ID |
| TagBuilder.Builder.ResolveDependenciesAsWritten | src/org/spdx/tag/BuildDocument.java:1250-1328 | as written: the snippet header is followed by the dependency names instead of the snippet file IDs |
| TagBuilder.Builder.AnnounceMissingAsWritten | src/org/spdx/tag/BuildDocument.java:1320-1327 | as written: the lines under the snippet header list the unmatched dependency names |
| TagBuilder.Builder.ResolvePendingRelationships | src/org/spdx/tag/BuildDocument.java:1224-1242 | the open relationship is queued, and the document then holds what `TagStore.AddRelationships` gives, with its warnings appended |
| TagBuilder.Builder.ResolvePendingAnnotations | src/org/spdx/tag/BuildDocument.java:1194-1218 | the open annotation is queued, and the document then holds what `TagStore.AddAnnotations` gives, with its warnings appended |
| TagBuilder.Builder.AddDefaultDescribes | src/org/spdx/tag/BuildDocument.java:1169-1188 | corrected: the document becomes `TagStore.SinglePackageDefault` of what it was |
| TagBuilder.Builder.CheckSinglePackageDefaultAsWritten | src/org/spdx/tag/BuildDocument.java:1169-1188 | as written: the error of `TagStore.SinglePackageDefaultAsWritten`, which fails on a document without packages |
| TagBuilder.Builder.FlushDefinitions | src/org/spdx/tag/BuildDocument.java:1147-1151 | corrected: no file or snippet is open afterwards, and an open snippet is in the document |
| TagBuilder.Builder.AttachLastPackage | src/org/spdx/tag/BuildDocument.java:1149-1151 | with no last package nothing changes; otherwise it is appended to the document's elements |
| TagBuilder.Builder.ResolveAll | src/org/spdx/tag/BuildDocument.java:1152-1156 | corrected: resolution adds no element to the document and removes none |
| TagBuilder.Builder.FinishExit | src/org/spdx/tag/BuildDocument.java:1155-1156 | the annotations are resolved, then the document's own verification messages are appended to the warnings |
| TagBuilder.Builder.Exit | src/org/spdx/tag/BuildDocument.java:1147-1162 | corrected: the only error is the missing namespace, and an open snippet always ends up in the document |
| TagBuilder.Builder.ExitAsWritten | src/org/spdx/tag/BuildDocument.java:1147-1162 | as written: the open snippet is never attached, and the exit can also fail on a document without packages |
| TagBuilder.Builder.ResolveAllAsWritten | src/org/spdx/tag/BuildDocument.java:1152-1156 | as written: the only error is the single-package check, on a document without packages |
| TagPrinter.ChecksumValue | src/org/spdx/tag/CommonCode.java:673-678 | a checksum line's value is the algorithm's tag, one space, then the value (`null` when missing) |
| TagPrinter.ChecksumLineRoundTrip | src/org/spdx/tag/CommonCode.java:673-678 | a checksum line whose algorithm tag is known and whose parts are single tokens is read back as that checksum |
| TagPrinter.ChecksumLineOfMissingValue | src/org/spdx/tag/CommonCode.java:673-678 | a checksum without a value prints as the text `null` and reads back with that text as its value |
| TagPrinter.PrintChecksums | src/org/spdx/tag/CommonCode.java:513-518 | one checksum line per checksum, in order, each the line `ChecksumLineRoundTrip` reads back |
| TagPrinter.RelationshipValue | src/org/spdx/tag/CommonCode.java:386-392 | a relationship line's value is the element's ID, the type's tag and the related element's ID, separated by single spaces |
| TagPrinter.RelationshipLineRoundTrip | src/org/spdx/tag/CommonCode.java:386-392 | with whitespace-free IDs and a known type, the relationship line gives back the element, the type and the related element |
| TagPrinter.Shown | src/org/spdx/tag/CommonCode.java:320-338 | a part of an external document reference prints as its text, or as `[UNSPECIFIED]` when it is missing or empty |
| TagPrinter.ExternalDocRefValue | src/org/spdx/tag/CommonCode.java:320-338 | an external document reference line's value is the shown ID, a space, the shown namespace, then ` SHA1: ` and the shown checksum value, whatever the checksum's algorithm |
| TagPrinter.ExternalDocRefLineRoundTrip | src/org/spdx/tag/CommonCode.java:320-338 | every printed reference whose present parts are whitespace free reads back, with `[UNSPECIFIED]` for each missing part |
| TagPrinter.CompleteExternalDocRefRoundTrip | src/org/spdx/tag/CommonCode.java:320-338 | a complete reference with a SHA1 checksum reads back exactly |
| TagPrinter.FormatPointerRangeAsWritten | src/org/spdx/tag/CommonCode.java:294-312 | as written, the start and `:` come first, and the end prints as `[MISSING]` when it is a line pointer but the start is not, and by its own kind otherwise |
| TagPrinter.FormatPointerRange | src/org/spdx/tag/CommonCode.java:294-312 | corrected: the start, `:`, then the end, each printed by its own kind (`[MISSING]` when absent) |
| TagPrinter.FormatPointerRangeAgrees | src/org/spdx/tag/CommonCode.java:294-312 | the code as written and the corrected form agree on every range whose end is a byte offset or missing, or whose start is a line pointer, which covers every range the reader builds |
| TagPrinter.FormatPointerRangeDropsLineEnd | src/org/spdx/tag/CommonCode.java:305-309 | a range from byte offset 1 to line 2 prints as `1:[MISSING]` as written, and as `1:2` corrected |
| TagPrinter.ByteRangeRoundTrip | src/org/spdx/tag/CommonCode.java:294-312 | a byte range with non-negative 32-bit ends, printed by the corrected `formatPointerRange`, is read back by the byte range parser |
| TagPrinter.LineRangeRoundTrip | src/org/spdx/tag/CommonCode.java:294-312 | a line range with non-negative 32-bit ends, printed by the corrected `formatPointerRange`, is read back by the line range parser |
| TagPrinter.ExcludedFilesSuffixAsWritten | src/org/spdx/tag/CommonCode.java:497-506 | as written, the builder loop puts `, ` before every name, the first included, so the suffix is `(, a, b)` |
| TagPrinter.ExcludedFilesSuffix | src/org/spdx/tag/CommonCode.java:497-506 | corrected: the names joined with `, ` in parentheses |
| TagPrinter.VerificationCodeLinesAsWritten | src/org/spdx/tag/CommonCode.java:491-511 | as written: one line only for a non-empty code, with the as-written suffix only for a non-empty excluded list |
| TagPrinter.VerificationCodeLines | src/org/spdx/tag/CommonCode.java:491-511 | corrected: one line only for a non-empty code, with the parenthesised suffix only for a non-empty excluded list |
| TagPrinter.VerificationCodeRoundTrip | src/org/spdx/tag/CommonCode.java:491-511 | the corrected line reads back as the code it was printed from, when the names are plain |
| TagPrinter.VerificationCodeAsWrittenAddsEmptyName | src/org/spdx/tag/CommonCode.java:497-500 | as written, a non-empty excluded list reads back with an extra empty name in front |
| TagPrinter.PrintSeeAlso | src/org/spdx/tag/CommonCode.java:430-438 | the seeAlso line is printed only for a non-empty list, and its value is the URLs joined with `, ` in order |
| TagPrinter.SeeAlsoRoundTrip | src/org/spdx/tag/CommonCode.java:430-437 | URLs without commas or outer whitespace survive joining with `, ` followed by splitting at `,` and trimming |
| TagPrinter.PrintFileTypes | src/org/spdx/tag/CommonCode.java:688-693 | one FileType line per file type, in order, with the file type's tag as value |
| TagPrinter.FileTypeLineReadsBack | src/org/spdx/tag/CommonCode.java:688-693 | the reader's trim-and-`fromTag` of a printed FileType value gives the file type back |
| SpdxTypes.GetSha1 | src/org/spdx/rdfparser/model/SpdxPackage.java:1128-1138 | the value of the first SHA1 checksum, or `""` when there is none; a missing value reads as missing |
| SpdxTypes.GetSha1Append | src/org/spdx/rdfparser/model/SpdxPackage.java:1128-1138 | appending a checksum never changes a SHA1 already found, and supplies one only when there was none |
| SpdxFileModel.TagBijection | src/org/spdx/rdfparser/model/SpdxFile.java:53-118 | `getTag` and `fromTag` are inverse bijections between the eleven file types and their eleven tags |
| SpdxFileModel.ValueOf | src/org/spdx/rdfparser/model/SpdxFile.java:313-332 | `FileType.valueOf` gives the file type whose constant name is the text, and nothing for any other text |
| SpdxFileModel.FileTypesToUris | src/org/spdx/rdfparser/model/SpdxFile.java:334-340 | each type becomes the SPDX namespace followed by its constant name, in order |
| SpdxFileModel.UrisToFileType | src/org/spdx/rdfparser/model/SpdxFile.java:313-332 | the loop over the URIs: a URI outside the namespace fails; an unknown name fails unless errors are ignored, in which case it is dropped |
| SpdxFileModel.UrisRoundTrip | src/org/spdx/rdfparser/model/SpdxFile.java:313-340 | reading back the URIs of a list of file types gives the same list |
| SpdxFileModel.UrisOutsideNamespaceFail | src/org/spdx/rdfparser/model/SpdxFile.java:318-323 | an entry outside the SPDX namespace makes the conversion fail whether or not errors are ignored, unless an earlier entry already failed |
| SpdxFileModel.UrisIgnoringErrors | src/org/spdx/rdfparser/model/SpdxFile.java:313-332 | ignoring errors, the conversion fails only on an entry outside the namespace, and otherwise returns exactly the types the entries name, every one of them, in the order of the entries (`KnownTypes`) |
| SpdxFileModel.NewFile | src/org/spdx/rdfparser/model/SpdxFile.java:138-164 | the constructor makes missing file types, checksums, contributors and projects empty, keeps present ones as given, and a new file has no dependencies |
| SpdxFileModel.AddFileType | src/org/spdx/rdfparser/model/SpdxFile.java:414-422 | a missing type changes nothing; otherwise it is appended at the end |
| SpdxFileModel.AddChecksum | src/org/spdx/rdfparser/model/SpdxFile.java:457-465 | a missing checksum changes nothing; otherwise it is appended at the end |
| SpdxFileModel.SetFileTypes | src/org/spdx/rdfparser/model/SpdxFile.java:399-407 | a missing list is stored as the empty one and any other list as given |
| SpdxFileModel.SetFileContributors | src/org/spdx/rdfparser/model/SpdxFile.java:481-489 | a missing list is stored as the empty one and any other list as given |
| SpdxFileModel.SetArtifactOf | src/org/spdx/rdfparser/model/SpdxFile.java:537-545 | a missing list is stored as the empty one and any other list as given |
| SpdxFileModel.SetFileDependencies | src/org/spdx/rdfparser/model/SpdxFile.java:589-597 | a missing list is stored as the empty one and any other list as given |
| SpdxFileModel.AddChecksumSha1 | src/org/spdx/rdfparser/model/SpdxFile.java:294-304 | after adding a checksum, the file's SHA1 is the one it had, or the added checksum's value when it had none and that checksum is a SHA1 |
| SpdxFileModel.Verify | src/org/spdx/rdfparser/model/SpdxFile.java:699-735 | the inherited element messages come first, then the checksum and SHA1 part, then the projects' messages, then the dependencies' messages |
| SpdxFileModel.ChecksumMessages | src/org/spdx/rdfparser/model/SpdxFile.java:705-717 | with no checksums, the missing-checksum message (naming `UNKNOWN` for a missing name); otherwise each checksum's own messages, with the file's name added as `addNameToWarnings` does; then one more message, last of this part, exactly when the SHA1 is missing or empty |
| SpdxFileModel.DependencyLines | src/org/spdx/rdfparser/model/SpdxFile.java:726-731 | one line per message of the dependency's own verify, each prefixed with `Invalid file dependency for file named `, the dependency's name (`null` when missing) and `: ` |
| SpdxFileModel.ProjectMessagesEmptyIff | src/org/spdx/rdfparser/model/SpdxFile.java:718-723 | the projects add nothing exactly when every project's own verify reports nothing |
| SpdxFileModel.DependencyMessagesEmptyIff | src/org/spdx/rdfparser/model/SpdxFile.java:724-733 | the dependencies add nothing exactly when every dependency's own verify reports nothing |
| SpdxFileModel.VerifyClean | src/org/spdx/rdfparser/model/SpdxFile.java:699-735 | a file verifies clean exactly when the inherited part reports nothing, it has checksums none of which reports anything, its SHA1 is not empty, and every project and every dependency reports nothing |
| SpdxFileModel.ChecksumMessageInVerify | src/org/spdx/rdfparser/model/SpdxFile.java:708-712 | every message a checksum reports about itself is part of the file's verify, with the file's name added |
| SpdxFileModel.CompareTo | src/org/spdx/rdfparser/model/SpdxFile.java:743-746 | files are ordered by name, and a missing name on either side is a `NullPointerException` |
| SpdxFileModel.CompareToByName | src/org/spdx/rdfparser/model/SpdxFile.java:743-746 | the order of files is antisymmetric, and two files are equal in it exactly when their names are |
| SpdxPackageModel.NewPackage | src/org/spdx/rdfparser/model/SpdxPackage.java:95-127 | the full constructor makes missing checksums and files empty and keeps the external references as given |
| SpdxPackageModel.NewPackageWithDefaults | src/org/spdx/rdfparser/model/SpdxPackage.java:129-153 | the constructor the tag/value reader uses: files analyzed, no checksums, no files and an empty (not missing) list of external references |
| SpdxPackageModel.AddChecksum | src/org/spdx/rdfparser/model/SpdxPackage.java:456-464 | a missing checksum changes nothing; otherwise it is appended at the end |
| SpdxPackageModel.AddFile | src/org/spdx/rdfparser/model/SpdxPackage.java:738-750 | a missing file changes nothing; otherwise it is appended at the end |
| SpdxPackageModel.AddExternalRef | src/org/spdx/rdfparser/model/SpdxPackage.java:1144-1156 | a missing reference changes nothing; a missing list becomes the list of that one reference; otherwise it is appended at the end |
| SpdxPackageModel.AppendKeepsPrefix | src/org/spdx/rdfparser/model/SpdxPackage.java:456-464 | each append keeps the earlier elements in place and puts the new one last |
| SpdxPackageModel.CompareToIgnoresCase | src/org/spdx/rdfparser/model/SpdxPackage.java:1103-1122 | packages whose name and version differ only in letter case compare equal |
| SpdxPackageModel.CompareToAntisymmetric | src/org/spdx/rdfparser/model/SpdxPackage.java:1103-1122 | the package order is antisymmetric |
| SpdxPackageModel.CompareToMissingParts | src/org/spdx/rdfparser/model/SpdxPackage.java:1103-1122 | a package with neither name nor version compares as the empty text, below any other package by that package's text length |
| SpdxPackageModel.FilesAnalyzedFromText | src/org/spdx/rdfparser/model/SpdxPackage.java:253-266 | a missing text means true; after trimming, `true` and `1` mean true, `false` and `0` mean false, and anything else is an error |
| SpdxPackageModel.FilesAnalyzedRoundTrip | src/org/spdx/rdfparser/model/SpdxPackage.java:253-266 | the stored text of a flag reads back as the same flag |
| SpdxPackageModel.DownloadLocationMessages | src/org/spdx/rdfparser/model/SpdxPackage.java:911-916 | a missing or empty download location gives exactly one message |
| SpdxPackageModel.DeclaredLicenseMessages | src/org/spdx/rdfparser/model/SpdxPackage.java:927-939 | a missing declared license gives one message, and a present one gives its own verification messages, each with the package's name added and none added or dropped |
| SpdxPackageModel.LicenseInfoMessages | src/org/spdx/rdfparser/model/SpdxPackage.java:940-959 | license information from the files is required only when the files were analyzed; otherwise only a complex license among it is reported |
| SpdxPackageModel.FilesMessages | src/org/spdx/rdfparser/model/SpdxPackage.java:960-979 | missing files are reported only when the files were analyzed; present files are reported only when they were not, and each present file's own messages follow in file order |
| SpdxTypes.NamedMessages | src/org/spdx/rdfparser/model/SpdxPackage.java:932-935 | adding the element's name rewrites each message where it stands: the same number of messages, the i-th one named |
| SpdxTypes.EachNamedEmptyIff | src/org/spdx/rdfparser/model/SpdxPackage.java:971-975 | the parts (checksums or files) add nothing exactly when every part's own verify reports nothing |
| SpdxPackageModel.FilesMessagesEmptyIff | src/org/spdx/rdfparser/model/SpdxPackage.java:960-979 | the file part is silent exactly when there are files if and only if they were analyzed, and every listed file verifies clean |
| SpdxTypes.EachNamedIncludes | src/org/spdx/rdfparser/model/SpdxPackage.java:971-975 | every message a part reports is passed on, with the element's name added |
| SpdxPackageModel.VerificationCodeMessages | src/org/spdx/rdfparser/model/SpdxPackage.java:981-996 | a verification code is required when the files were analyzed, and a non-empty one is rejected when they were not; when analyzed, a present code's own messages are passed on, each with the package's name added |
| SpdxPackageModel.Verify | src/org/spdx/rdfparser/model/SpdxPackage.java:901-1022 | the inherited element messages, then the download location, checksum (named), declared license (named), license-from-files, files, verification code, supplier/originator and external reference messages, in the order the source checks them |
| SpdxPackageModel.NotAnalyzedNeedsNothing | src/org/spdx/rdfparser/model/SpdxPackage.java:940-996 | a package whose files were not analyzed, with no files and no verification code value, gets no message from the files-analyzed rules |
| SpdxPackageModel.AnalyzedNeedsAll | src/org/spdx/rdfparser/model/SpdxPackage.java:940-996 | an analyzed package without files, without license information from files or without a verification code gets each corresponding message |
| SpdxPackageModel.NamedMessagesInVerify | src/org/spdx/rdfparser/model/SpdxPackage.java:918-996 | every message a checksum, the declared license, the verification code (when analyzed) or a listed file (whatever the flag) reports is part of the package's verify, with the package's name added |
| ExternalDocRefModel.DocumentToDocumentUri | src/org/spdx/rdfparser/model/ExternalDocumentRef.java:112-121 | no document gives no URI; otherwise the namespace with exactly one trailing `#` removed when there is one |
| ExternalDocRefModel.Verify | src/org/spdx/rdfparser/model/ExternalDocumentRef.java:128-155 | a missing namespace, checksum or ID each gives its message, in that order, and a checksum whose algorithm is not SHA1 gives one; nothing else is reported but the helpers' messages about present parts |
| ExternalDocRefModel.VerifyEmptyIff | src/org/spdx/rdfparser/model/ExternalDocumentRef.java:128-155 | verify reports nothing exactly when the namespace is a valid URI, the checksum is a valid SHA1 checksum and the ID is a valid external document ID |
| ExternalDocRefModel.CompareTo | src/org/spdx/rdfparser/model/ExternalDocumentRef.java:320-362 | the order is by ID, then namespace, then checksum value; a missing part of the receiver sorts first |
| ExternalDocRefModel.CompareToOfComplete | src/org/spdx/rdfparser/model/ExternalDocumentRef.java:320-362 | on complete references the order is antisymmetric, and zero exactly when ID, namespace and checksum value are equal |
| ExternalDocRefModel.Equivalent | src/org/spdx/rdfparser/model/ExternalDocumentRef.java:270-286 | two references are equivalent exactly when their namespaces are equal, their checksums are both missing or equal, and their IDs are equal |
| ExternalDocRefModel.Clone | src/org/spdx/rdfparser/model/ExternalDocumentRef.java:289-292 | the clone has all three fields of the original, and cloning fails when there is no checksum to clone |
| VerificationCodeGen.KeptOf | src/org/spdx/rdfparser/VerificationCodeGenerator.java:160-177 | the segments kept from the first n are never `..`, and there are at most n of them |
| VerificationCodeGen.DropParentSegments | src/org/spdx/rdfparser/VerificationCodeGenerator.java:160-177 | the segment loop of `normalizeFilePath`, which drops each `..` together with the segment before it, computes the rebuilt path |
| VerificationCodeGen.NormalizeFilePath | src/org/spdx/rdfparser/VerificationCodeGenerator.java:158-185 | the method computes the normalised path: backslashes to slashes, trimmed, parent segments dropped when `../` occurs, `./` removed, then `./` put in front |
| VerificationCodeGen.NormalizedStartsWithDotSlash | src/org/spdx/rdfparser/VerificationCodeGenerator.java:178-184 | every normalised path starts with `./` |
| VerificationCodeGen.NormalizedHasNoBackslash | src/org/spdx/rdfparser/VerificationCodeGenerator.java:159 | no normalised path contains a backslash |
| VerificationCodeGen.DotSlashPrefixed | src/org/spdx/rdfparser/VerificationCodeGenerator.java:178-184 | the last step always yields a path starting with `./`, sharing a leading slash with it |
| VerificationCodeGen.RebuildKeepsChars | src/org/spdx/rdfparser/VerificationCodeGenerator.java:160-177 | the segment loop adds no character but `/` to those of the segments |
| VerificationCodeGen.RebuildIsJoinOfKept | src/org/spdx/rdfparser/VerificationCodeGenerator.java:160-177 | the segment loop yields the kept segments joined with `/`, led by `/` when the first segment was dropped |
| VerificationCodeGen.FirstKept | src/org/spdx/rdfparser/VerificationCodeGenerator.java:160-177 | a first segment that is kept comes first among the kept segments |
| VerificationCodeGen.ConvertChecksumToString | src/org/spdx/rdfparser/VerificationCodeGenerator.java:191-201 | the loop computes the hexadecimal form of the digest |
| VerificationCodeGen.HexPairDigits | src/org/spdx/rdfparser/VerificationCodeGenerator.java:194-199 | each byte is written as exactly two lowercase hexadecimal characters, the high half first |
| VerificationCodeGen.HexStringShape | src/org/spdx/rdfparser/VerificationCodeGenerator.java:191-201 | the hexadecimal form has two characters per byte, and all of them are lowercase hex digits |
| VerificationCodeGen.HexPairValue | src/org/spdx/rdfparser/VerificationCodeGenerator.java:194-199 | the two characters written for a byte read back as its value |
| VerificationCodeGen.HexStringRoundTrip | src/org/spdx/rdfparser/VerificationCodeGenerator.java:191-201 | the hexadecimal form determines the digest: reading it back gives the byte values |
| VerificationCodeGen.SortProperties | src/org/spdx/rdfparser/VerificationCodeGenerator.java:112 | the sort yields a sorted permutation of the checksums |
| VerificationCodeGen.SortedUnique | src/org/spdx/rdfparser/VerificationCodeGenerator.java:112 | two sorted permutations of one multiset are the same sequence |
| VerificationCodeGen.SortOrderIndependent | src/org/spdx/rdfparser/VerificationCodeGenerator.java:112 | permutations of the checksums sort to the same sequence |
| VerificationCodeGen.GenerateFromChecksums | src/org/spdx/rdfparser/VerificationCodeGenerator.java:110-121 | the method computes the code of the sorted and concatenated checksums, with the skipped paths as excluded names |
| VerificationCodeGen.CodeOfProperties | src/org/spdx/rdfparser/VerificationCodeGenerator.java:110-121 | the code does not depend on the order of the checksums, its excluded list is exactly the skipped paths, and a 20-byte digest gives a 40-character value |
| VerificationCodeGen.GeneratePackageVerificationCode | src/org/spdx/rdfparser/VerificationCodeGenerator.java:60-80 | no files gives no code; a contributing file whose SHA1 has no value is an error; otherwise the code of the contributing files' SHA1 values, in order |
| VerificationCodeGen.ContributionsSnoc | src/org/spdx/rdfparser/VerificationCodeGenerator.java:73-78 | one more file adds its SHA1 at the end exactly when it is present, has a name and the name is not skipped, and adds nothing otherwise |
| VerificationCodeGen.SkippedContributeNothing | src/org/spdx/rdfparser/VerificationCodeGenerator.java:64-78 | files whose names are all skipped contribute nothing |
| SpdxDocumentModel.FormDocNamespace | src/org/spdx/rdfparser/SPDXDocument.java:1817-1825 | the namespace always ends in `#` and what comes before it is a prefix of the URI; the cut is at the first `#` (the namespace's last `#` stands where the URI has a `#`, and, unless the URI is empty or starts with `#`, no `#` comes before it); a URI without `#`, or starting with `#`, just gains one |
| SpdxDocumentModel.FormDocNamespaceIdempotent | src/org/spdx/rdfparser/SPDXDocument.java:1817-1825 | unless the URI is empty or starts with `#`, the namespace's only `#` is its last character, and forming it again changes nothing |
| SpdxDocumentModel.FormDocNamespaceOfFragmentOnly | src/org/spdx/rdfparser/SPDXDocument.java:1817-1825 | the empty URI gives `#` and the URI `#` gives `##`, since a `#` at index 0 is not cut |
| SpdxDocumentModel.DocumentUriOfNamespace | src/org/spdx/rdfparser/SPDXDocument.java:1817-1825 | the document URI of a formed namespace is the namespace without its trailing `#` |
| SpdxDocumentModel.GetElementRefNumber | src/org/spdx/rdfparser/SPDXDocument.java:988-995 | it fails exactly on a reference shorter than the prefix; otherwise the result is the value `parseInt` reads from the text after the prefix's length when it reads one, and -1 when it does not |
| SpdxDocumentModel.ElementRefRoundTrip | src/org/spdx/rdfparser/SPDXDocument.java:988-995 | every element reference formed from a 32-bit number reads back as it |
| SpdxDocumentModel.FormNonStandardLicenseIDInjective | src/org/spdx/rdfparser/SPDXDocument.java:1041-1043 | distinct numbers give distinct license IDs |
| SpdxDocumentModel.LicenseRefNumAsWritten | src/org/spdx/rdfparser/SPDXDocument.java:1028-1039 | as written: it answers non-numeric exactly for an ID that is not `LicenseRef-` followed by digits, and a number it reads is a non-negative int; `Integer.decode` may fail instead |
| SpdxDocumentModel.LicenseRefNum | src/org/spdx/rdfparser/SPDXDocument.java:1028-1039 | corrected: the number of a `LicenseRef-N` ID is its decimal value; a non-numeric ID, or one whose number does not fit an int, is skipped and never an error |
| SpdxDocumentModel.LicenseRefRoundTrip | src/org/spdx/rdfparser/SPDXDocument.java:1028-1043 | both readings give back the number of every formed license ID |
| SpdxDocumentModel.LicenseRefNumAsWrittenThrows | src/org/spdx/rdfparser/SPDXDocument.java:1037 | `LicenseRef-08` makes `Integer.decode` fail, as an invalid octal number, while the corrected reading gives 8 |
| SpdxDocumentModel.HighestLicenseRef | src/org/spdx/rdfparser/SPDXDocument.java:1005-1018 | corrected: the highest number among the numeric license IDs, or 0, always a non-negative int |
| SpdxDocumentModel.HighestLicenseRefAsWritten | src/org/spdx/rdfparser/SPDXDocument.java:1005-1018 | as written: a number the scan finds is a non-negative int, but the first ID that `Integer.decode` rejects aborts the scan with an error |
| SpdxDocumentModel.NextLicenseRefAsWrittenFails | src/org/spdx/rdfparser/SPDXDocument.java:1005-1018 | a document holding `LicenseRef-08` fails the initialisation as written, and gets 9 as the next number when corrected |
| SpdxDocumentModel.HighestLicenseRefBound | src/org/spdx/rdfparser/SPDXDocument.java:1005-1018 | no numeric license ID exceeds the highest one |
| SpdxDocumentModel.NextLicenseRefFresh | src/org/spdx/rdfparser/SPDXDocument.java:1005-1018 | the license ID formed from one past the highest number is not among the IDs in use |
| SpdxDocumentModel.VerifySpdxVersion | src/org/spdx/rdfparser/SPDXDocument.java:1045-1054 | there is no message exactly for a version of the form `SPDX-M.N`, and a text without the `SPDX-` prefix gets the prefix message |
| SpdxDocumentModel.VersionAccepted | src/org/spdx/rdfparser/SPDXDocument.java:1045-1054 | every `SPDX-M.N` with decimal M and N is accepted |
| SpdxDocumentModel.AcceptedVersionShape | src/org/spdx/rdfparser/SPDXDocument.java:1045-1054 | an accepted version is `SPDX-`, then a non-empty digit run, a dot, and another non-empty digit run |
| SpdxDocumentModel.DataLicenseError | src/org/spdx/rdfparser/SPDXDocument.java:1355-1376 | setting the data license succeeds exactly when there is a version and the license is the one it demands; for every version but SPDX-1.0 that is the current data license ID; the messages are the source's |
| SpdxDocumentModel.DefaultDataLicense | src/org/spdx/rdfparser/SPDXDocument.java:1795-1808 | there is no default data license exactly for SPDX-0.8 and SPDX-0.9; otherwise it is the one the version demands |
| SpdxDocumentModel.SpdxDocument.constructor | src/org/spdx/rdfparser/SPDXDocument.java:913-942 | a document over an empty graph has no version, namespace or data license, no license IDs in its graph, the license counter at 1 and the element counter at 0 |
| SpdxDocumentModel.SpdxDocument.GetNextLicenseRef | src/org/spdx/rdfparser/SPDXDocument.java:1692-1695 | the ID of the current number is returned and the counter moves on by one, wrapping like an `AtomicInteger`; nothing else changes |
| SpdxDocumentModel.SpdxDocument.GetNextSpdxElementRef | src/org/spdx/rdfparser/SPDXDocument.java:1701-1708 | the reference of the current number is returned and the counter moves on by one; nothing else changes |
| SpdxDocumentModel.SpdxDocument.InitializeNextLicenseRef | src/org/spdx/rdfparser/SPDXDocument.java:1005-1018 | corrected: the next license number is one past the highest numeric license ID; nothing else changes |
| SpdxDocumentModel.SpdxDocument.SetDataLicense | src/org/spdx/rdfparser/SPDXDocument.java:1355-1376 | the license is recorded, and its ID joins the graph, exactly when the version allows it; the error is `DataLicenseError`'s |
| SpdxDocumentModel.SpdxDocument.AddNewExtractedLicenseInfo | src/org/spdx/rdfparser/SPDXDocument.java:1667-1687 | an ID that any license node of the graph already carries (so also every extracted license's ID) is rejected with the source's message and nothing changes; otherwise it is appended to the extracted licenses and joins the graph |
| SpdxDocumentModel.SpdxDocument.CreateSpdxAnalysis | src/org/spdx/rdfparser/SPDXDocument.java:1771-1810 | it fails exactly for an invalid version, and then nothing changes; otherwise the version and the formed namespace are set, the extracted licenses are cleared, the graph's license IDs are cleared when a document was already there, both counters restart at 1, and the data license is the required one, its ID in the graph, except for versions 0.8 and 0.9 |
| SpdxDocumentModel.SpdxDocument.Reset | src/org/spdx/rdfparser/SPDXDocument.java:1776-1808 | once the version is accepted: the graph's license IDs are cleared when a document was there, the extracted licenses cleared, the namespace formed, the version set, both counters at 1, and the default data license set with its ID in the graph |
| SpdxDocumentModel.SuccessiveRefsDiffer | src/org/spdx/rdfparser/SPDXDocument.java:1692-1704 | below the largest int the counter grows by exactly one, so two successive calls of either `getNext*` method issue different IDs |
| ItemComparison.RecordLookup | src/org/spdx/compare/SpdxItemComparer.java:236-258 | recording a list for a pair of documents sets that entry, creating the inner map when needed, and leaves every other pair as it was |
| ItemComparison.Stored | src/org/spdx/compare/SpdxItemComparer.java:334-347 | a result getter returns the list stored for the pair, and an empty list when either level of the table has no entry |
| ItemComparison.FindFromMeaning | src/org/spdx/compare/SpdxItemComparer.java:271-306 | when no license comparison fails, the inner search succeeds, and it finds a license exactly when some license from the start index on equals it |
| ItemComparison.UniqueFromMeaning | src/org/spdx/compare/SpdxItemComparer.java:271-306 | when no license comparison fails, the licenses kept as unique are exactly those of the first list, in order, that equal none of the second |
| ItemComparison.UnmatchedSound | src/org/spdx/compare/SpdxItemComparer.java:271-306 | every license kept as unique belongs to the first list and equals no license of the second |
| ItemComparison.UnmatchedComplete | src/org/spdx/compare/SpdxItemComparer.java:271-306 | every license of the first list that equals no license of the second is kept as unique |
| ItemComparison.SearchLicense | src/org/spdx/compare/SpdxItemComparer.java:271-306 | the inner loop computes the search specification: the result of the first comparison that fails, or whether some license is equal |
| ItemComparison.CollectUnique | src/org/spdx/compare/SpdxItemComparer.java:271-306 | the outer loop computes the unique-license specification, including its failure |
| ItemComparison.CompareLicenseArrays | src/org/spdx/compare/SpdxItemComparer.java:271-306 | the first failing comparison is reported; otherwise the two results are the licenses of a equal to none of b, and those of b equal to none of a, with the translation applied from the side of a |
| ItemComparison.CompareAgainstAll | src/org/spdx/compare/SpdxItemComparer.java:151-226 | for every document already holding the item, in whatever order, the unique elements are recorded in both directions under the ordered pair and every other entry is kept; a difference is reported exactly when one of those lists is non-empty |
| ItemComparison.CompareLicensesAgainstAll | src/org/spdx/compare/SpdxItemComparer.java:228-259 | it fails exactly when a license comparison with some document fails; otherwise both directions are recorded for every document, as for the other lists, and a difference is reported exactly when one of the lists is non-empty |
| ItemComparison.RecordLicenses | src/org/spdx/compare/SpdxItemComparer.java:236-258 | one document of the loop: it fails exactly when that document's comparison fails, and otherwise the recorded entries and the difference flag extend to that document |
| ItemComparison.FieldDifferences | src/org/spdx/compare/SpdxItemComparer.java:107-132 | the comparison fails exactly when the concluded-license comparison fails; otherwise each of comment, concluded license, copyright, attribution text and license comments is reported different exactly when its own comparison says so, and nothing else is reported |
| ItemComparison.SeenLicensesOf | src/org/spdx/compare/SpdxItemComparer.java:134 | the seen licenses of every item held, under its document |
| ItemComparison.ListAspects | src/org/spdx/compare/SpdxItemComparer.java:134-138 | exactly the list aspects whose flag is set |
| ItemComparison.CompareWithItems | src/org/spdx/compare/SpdxItemComparer.java:134-138 | it fails exactly when the seen-license comparison with some held item fails, and then neither other table changes; otherwise all three tables are recorded against every item held, and the aspects reported are exactly those whose lists differ |
| ItemComparison.CompareItem | src/org/spdx/compare/SpdxItemComparer.java:102-139 | a document without a translation map fails with a null-pointer error and changes nothing; a failing concluded-license comparison keeps only the comment difference found before it; otherwise the fields are compared with one held item and the lists with all of them |
| ItemComparison.ItemComparer.constructor | src/org/spdx/compare/SpdxItemComparer.java:78-80 | a new comparer has added nothing, holds no item, found no difference and has no name |
| ItemComparison.ItemComparer.MarkDifferent | src/org/spdx/compare/SpdxItemComparer.java:107-132 | the aspects found different are added, and a difference is recorded exactly when there is one |
| ItemComparison.ItemComparer.CompareHeld | src/org/spdx/compare/SpdxItemComparer.java:102-139 | the comparison with the items held, its tables and difference flags stored; a document without a translation map fails |
| ItemComparison.ItemComparer.CheckName | src/org/spdx/compare/SpdxItemComparer.java:94-99 | the first item names the comparer; a later item named otherwise is refused, unless this is a snippet comparer; the name never changes once set |
| ItemComparison.ItemComparer.Hold | src/org/spdx/compare/SpdxItemComparer.java:100-141 | the item is held exactly when the comparison succeeds, the comparer stays in progress exactly when it fails, and the first item is compared with nothing |
| ItemComparison.ItemComparer.AddDocumentItem | src/org/spdx/compare/SpdxItemComparer.java:89-142 | refused while in progress; refused for a differently named item of a non-snippet comparer, leaving it not in progress; a missing translation map leaves it in progress; on success the item is held, the comparer answers queries, and every table and flag is what the comparison with the held items gives |
| ItemComparison.ItemComparer.ResultError | src/org/spdx/compare/SpdxItemComparer.java:387-397 | a result is available exactly when no add is in progress and some item has been added, and the two errors are reported in that order |
| ItemComparison.ItemComparer.IsDifferenceFound | src/org/spdx/compare/SpdxItemComparer.java:404-408 | fails exactly when no result is available, and otherwise tells whether the last item added differed |
| ItemComparison.ItemComparer.IsAspectEqual | src/org/spdx/compare/SpdxItemComparer.java:311-380 | each `is...Equals` getter fails exactly when no result is available, and otherwise is true exactly when no difference in its aspect was found |
| ItemComparison.ItemComparer.IsInProgress | src/org/spdx/compare/SpdxItemComparer.java:414-418 | it never answers true, because a comparer in progress reports an error instead |
| ItemComparison.ItemComparer.GetItem | src/org/spdx/compare/SpdxItemComparer.java:427-431 | fails exactly when no result is available; otherwise the item held for the document, or none |
| ItemComparison.ItemComparer.GetUniqueSeenLicenses | src/org/spdx/compare/SpdxItemComparer.java:334-347 | fails exactly when no result is available; otherwise the stored licenses of the first document's item equal to none of the second's, or an empty list |
| ItemComparison.ItemComparer.GetUniqueRelationship | src/org/spdx/compare/SpdxItemComparer.java:450-463 | fails exactly when no result is available; otherwise the stored relationships of the first document's item missing from the second's, or an empty list |
| ItemComparison.ItemComparer.GetUniqueAnnotations | src/org/spdx/compare/SpdxItemComparer.java:482-495 | fails exactly when no result is available; otherwise the stored annotations of the first document's item missing from the second's, or an empty list |
| PackageComparison.PackagesOf | src/org/spdx/compare/SpdxPackageComparer.java:151-160 | exactly the held items that are packages, with their package parts |
| PackageComparison.ChecksumsOf | src/org/spdx/compare/SpdxPackageComparer.java:440-472 | the checksums of every held package, under its document |
| PackageComparison.FilesOf | src/org/spdx/compare/SpdxPackageComparer.java:380-431 | the files of every held package, under its document |
| PackageComparison.ExternalRefsOf | src/org/spdx/compare/SpdxPackageComparer.java:262-267 | the external references of every held package, under its document |
| PackageComparison.EarlyFieldDifferences | src/org/spdx/compare/SpdxPackageComparer.java:162-189 | version, file name, supplier, originator, download location and verification code are each reported different exactly when their comparison says so, and nothing else is reported |
| PackageComparison.LateFieldDifferences | src/org/spdx/compare/SpdxPackageComparer.java:195-227 | the comparison fails, with the same error, exactly when the declared-license comparison fails; otherwise source info, declared license, summary, description, home page and the files-analyzed flag are each reported different exactly when their comparison says so |
| PackageComparison.PackageListAspects | src/org/spdx/compare/SpdxPackageComparer.java:191-237 | exactly the list aspects whose flag is set |
| PackageComparison.CompareFilesAgainstAll | src/org/spdx/compare/SpdxPackageComparer.java:380-431 | it fails exactly when the file comparison with some held package fails; otherwise the file differences are recorded under both ordered pairs, the unique files in both directions, and a difference is reported exactly when some of these lists is non-empty |
| PackageComparison.RecordFiles | src/org/spdx/compare/SpdxPackageComparer.java:384-429 | one package of the loop: it fails exactly when that comparison fails, and otherwise the recorded entries and the difference flag extend to that document |
| PackageComparison.CompareExternalRefsAgainstAll | src/org/spdx/compare/SpdxPackageComparer.java:248-301 | corrected: for every held package, the sorted differences go under both ordered pairs, the unique references of each side under its own pair, and a difference is reported exactly when some of these lists is non-empty |
| PackageComparison.CompareRefs | src/org/spdx/compare/SpdxPackageComparer.java:250-298 | one package of the loop: the references sorted by type and locator, their differences with the other package's, and the unique references in each direction |
| PackageComparison.UniqueRefsRecordedMeaning | src/org/spdx/compare/SpdxPackageComparer.java:282-336 | what is recorded for (doc, d) holds, counting repeats, exactly the references of doc whose type and locator d lacks, and the reverse for (d, doc) |
| PackageComparison.RefDifferencesRecordedMeaning | src/org/spdx/compare/SpdxPackageComparer.java:268-280 | the same differences are stored under both pairs, and each pairs a reference of doc with one of d that has the same type and locator but differs otherwise |
| PackageComparison.UniqueRefsAsWritten | src/org/spdx/compare/SpdxPackageComparer.java:251-292 | as written: the document's inner map of unique references is stored under the other document's key, and the stored maps are aliased |
| PackageComparison.UniqueRefsAsWrittenLosesReferences | src/org/spdx/compare/SpdxPackageComparer.java:287 | with a held document 0 without references and a new document 1 with one, the table as written has no entry for (1, 0) and an empty one for (1, 1), while the corrected table returns the reference for (1, 0) |
| PackageComparison.ComparePackage | src/org/spdx/compare/SpdxPackageComparer.java:151-238 | with no held package nothing is compared or changed; otherwise one held package is chosen, a document without a translation map fails with a null-pointer error, and the comparison succeeds exactly when no helper fails, recording every table |
| PackageComparison.CompareWithFirst | src/org/spdx/compare/SpdxPackageComparer.java:161-238 | it succeeds exactly when no helper fails; then the aspects found different are those of the fields compared with the chosen package together with those of the lists compared with every package, and every table is recorded |
| PackageComparison.CompareFilesAndRefs | src/org/spdx/compare/SpdxPackageComparer.java:228-237 | it fails exactly when a file comparison fails; otherwise the files and the external references are both recorded against every held package, each with its own difference flag |
| PackageComparison.PackageComparer.constructor | src/org/spdx/compare/SpdxPackageComparer.java:130-132 | a new comparer holds a fresh item comparer that is not a snippet comparer, no tables, no difference and no name |
| PackageComparison.PackageComparer.ProgressError | src/org/spdx/compare/SpdxPackageComparer.java:498-503 | an error exactly when this comparer or its item comparer is in progress |
| PackageComparison.PackageComparer.CheckName | src/org/spdx/compare/SpdxPackageComparer.java:144-149 | the first package names the comparer; a later package of another name is refused; the name never changes once set |
| PackageComparison.PackageComparer.ComparePackages | src/org/spdx/compare/SpdxPackageComparer.java:150-238 | the package part of an add: nothing happens with no held package; otherwise the outcome of the comparison, with every table and difference recorded |
| PackageComparison.PackageComparer.CompareAndHold | src/org/spdx/compare/SpdxPackageComparer.java:150-240 | the package comparison followed by the item comparison; on success nothing is in progress, the package is held by the item comparer, and both comparisons' tables and flags are recorded; an error leaves a comparer in progress and holds nothing |
| PackageComparison.PackageComparer.AddDocumentPackage | src/org/spdx/compare/SpdxPackageComparer.java:141-241 | refused while in progress, and for a package of another name, changing nothing; on success the package is held, its name kept, and every table and flag is what comparing it with the held packages and items gives |
| PackageComparison.PackageComparer.IsInProgress | src/org/spdx/compare/SpdxPackageComparer.java:478-480 | the answer reflects this comparer's own flag only: a true answer always goes with a progress error, and after a false one there is a progress error exactly when the item comparer is in progress |
| PackageComparison.PackageComparer.IsDifferenceFound | src/org/spdx/compare/SpdxPackageComparer.java:487-490 | an error while in progress; otherwise a package difference, or else the item comparer's answer |
| PackageComparison.PackageComparer.IsAspectEqual | src/org/spdx/compare/SpdxPackageComparer.java:508-620 | each package `is...Equals` getter fails exactly while in progress, and otherwise is true exactly when no difference in its aspect was found |
| PackageComparison.PackageComparer.IsItemAspectEqual | src/org/spdx/compare/SpdxItemComparer.java:311-380 | an inherited getter called on a package comparer: the package comparer's progress error first, then the item comparer's errors, otherwise whether its aspect never differed |
| PackageComparison.PackageComparer.GetDocPackage | src/org/spdx/compare/SpdxPackageComparer.java:627-634 | the package held for the document, or none when it holds nothing or something that is not a package |
| PackageComparison.PackageComparer.GetUniqueChecksums | src/org/spdx/compare/SpdxPackageComparer.java:640-651 | fails exactly while in progress; otherwise the stored checksums, or an empty list |
| PackageComparison.PackageComparer.GetUniqueExternalRefs | src/org/spdx/compare/SpdxPackageComparer.java:653-665 | fails exactly while in progress; otherwise the stored unique references, or an empty list |
| PackageComparison.PackageComparer.GetExternalRefDifferences | src/org/spdx/compare/SpdxPackageComparer.java:667-679 | fails exactly while in progress; otherwise the stored reference differences, or an empty list |
| PackageComparison.PackageComparer.GetFileDifferences | src/org/spdx/compare/SpdxPackageComparer.java:695-707 | fails exactly while in progress; otherwise the stored file differences, or an empty list |
| PackageComparison.PackageComparer.GetUniqueFiles | src/org/spdx/compare/SpdxPackageComparer.java:716-727 | fails exactly while in progress; otherwise the stored unique files, or an empty list |
| PackageComparison.PackageComparer.GetPackageName | src/org/spdx/compare/SpdxPackageComparer.java:732-735 | fails exactly while in progress; otherwise the comparer's name |
| PackageComparison.PackageComparer.GetNumPackages | src/org/spdx/compare/SpdxPackageComparer.java:741-744 | fails exactly while in progress; otherwise the number of documents holding an item |
| ExternalRefComparison.CompareOptionalAntisymmetric | src/org/spdx/compare/SpdxPackageComparer.java:102-123 | comparing two optional texts, a missing one first, in one order gives the negation of the other order |
| ExternalRefComparison.CompareOptionalZeroIffEqual | src/org/spdx/compare/SpdxPackageComparer.java:102-123 | two optional texts compare as 0 exactly when they are equal |
| ExternalRefComparison.CompareOptionalTransitive | src/org/spdx/compare/SpdxPackageComparer.java:102-123 | the order on optional texts is transitive |
| ExternalRefComparison.CompareByTypeNameAsWritten | src/org/spdx/compare/SpdxPackageComparer.java:87-125 | as written: the comparator fails exactly when the reference types tie, the first locator is present and the second is missing, because `compareTo` is called with null |
| ExternalRefComparison.AsWrittenAgreesWhenDefined | src/org/spdx/compare/SpdxPackageComparer.java:87-125 | whenever the comparator as written gives an answer, it is the corrected comparator's |
| ExternalRefComparison.AsWrittenThrowsOnMissingLocator | src/org/spdx/compare/SpdxPackageComparer.java:115-123 | a reference with locator `pkg:a` against one with no locator fails as written but gives -1 the other way, while the corrected comparator gives 1 and -1 |
| ExternalRefComparison.CompareAntisymmetric | src/org/spdx/compare/SpdxPackageComparer.java:87-125 | the comparator in one order gives the negation of the other order |
| ExternalRefComparison.CompareZeroIffSameKey | src/org/spdx/compare/SpdxPackageComparer.java:87-125 | two references compare as 0 exactly when they have the same type and the same locator |
| ExternalRefComparison.CompareTransitive | src/org/spdx/compare/SpdxPackageComparer.java:87-125 | the comparator's order is transitive |
| ExternalRefComparison.CompareStrictTransitive | src/org/spdx/compare/SpdxPackageComparer.java:87-125 | a strict step followed by a non-strict one is strict |
| ExternalRefComparison.SortPermutesAndSorts | src/org/spdx/compare/SpdxPackageComparer.java:352-353 | sorting by type and locator yields a sorted permutation, and keeps the multiset of keys |
| ExternalRefComparison.SortOfSorted | src/org/spdx/compare/SpdxPackageComparer.java:352-353 | a sorted sequence is left as it is |
| ExternalRefComparison.SortIdempotent | src/org/spdx/compare/SpdxPackageComparer.java:352-353 | sorting twice is sorting once |
| ExternalRefComparison.InsertAt | src/org/spdx/compare/SpdxPackageComparer.java:352-353 | one step of the in-place sort: the element at i is inserted into the sorted part before it, and the rest of the array is untouched |
| ExternalRefComparison.SortExternalRefs | src/org/spdx/compare/SpdxPackageComparer.java:352-353 | the array ends up holding the stable sort by type and locator of what it held |
| ExternalRefComparison.FindUniqueExternalRefs | src/org/spdx/compare/SpdxPackageComparer.java:309-336 | the merge walk computes the unique-reference specification |
| ExternalRefComparison.UniqueRefsWithin | src/org/spdx/compare/SpdxPackageComparer.java:309-336 | the unique references are a subsequence of the first list, and all of it when the second list is empty |
| ExternalRefComparison.UniqueRefsOfSelf | src/org/spdx/compare/SpdxPackageComparer.java:309-336 | a list has no references unique against itself |
| ExternalRefComparison.UniqueRefsDifference | src/org/spdx/compare/SpdxPackageComparer.java:309-336 | for two sorted lists, the keys of the unique references are, counting repeats, those of the first list minus those of the second |
| ExternalRefComparison.WalkDifferences | src/org/spdx/compare/SpdxPackageComparer.java:354-371 | the merge walk computes the reference-difference specification |
| ExternalRefComparison.FindExternalRefDifferences | src/org/spdx/compare/SpdxPackageComparer.java:346-372 | both arrays are sorted in place, and the result is the differences between the sorted contents |
| ExternalRefComparison.RefDifferencesSound | src/org/spdx/compare/SpdxPackageComparer.java:354-371 | every difference pairs a reference of each list with the same type and locator that differ otherwise, and there are no more differences than references in either list |
| ExternalRefComparison.RefDifferencesOfSelf | src/org/spdx/compare/SpdxPackageComparer.java:354-371 | a list has no differences with itself |
| ExternalRefComparison.RefDifferencesComplete | src/org/spdx/compare/SpdxPackageComparer.java:354-371 | for two lists sorted strictly by key, every pair with the same type and locator that differ otherwise is reported |
| ExternalRefComparison.SortedUniqueRefsMeaning | src/org/spdx/compare/SpdxPackageComparer.java:309-336 | after both sorts, the keys of the unique references are those of the first list minus those of the second, they come from the first list, and against an empty list they are the whole sorted list |
| ExternalRefComparison.SortedRefDifferencesMeaning | src/org/spdx/compare/SpdxPackageComparer.java:346-372 | after both sorts, every difference pairs references of the two lists with the same key that differ otherwise, and a list has none with itself |
| CompareSheets.AppendText | src/org/spdx/compare/FileArtifactOfSheet.java:58 | a missing name is appended as `null`, as a `StringBuilder` does |
| CompareSheets.ProjectTexts | src/org/spdx/compare/FileArtifactOfSheet.java:58-63 | the entry of each project, in order |
| CompareSheets.ArtifactOfValue | src/org/spdx/compare/FileArtifactOfSheet.java:48-66 | no projects gives the empty text; otherwise the loop computes the artifact-of text |
| CompareSheets.ArtifactOfStep | src/org/spdx/compare/FileArtifactOfSheet.java:54-64 | one step of the loop: `; ` then the project's entry, the separator only when the text so far is not empty |
| CompareSheets.ArtifactOfJoins | src/org/spdx/compare/FileArtifactOfSheet.java:48-66 | when every entry is non-empty, the column is the entries joined with `; ` |
| CompareSheets.ArtifactOfEmptyIff | src/org/spdx/compare/FileArtifactOfSheet.java:48-66 | the column is empty exactly when every entry is empty |
| CompareSheets.ArtifactOfNotEmpty | src/org/spdx/compare/FileArtifactOfSheet.java:48-66 | one non-empty entry makes the column non-empty |
| CompareSheets.ArtifactOfSkipsEmpty | src/org/spdx/compare/FileArtifactOfSheet.java:55-58 | an empty entry adds only a separator, and only after a non-empty text |
| CompareSheets.FindMatch | src/org/spdx/compare/FileArtifactOfSheet.java:95-103 | the inner loop finds a project of the other list with equal name, home page and project URI exactly when there is one |
| CompareSheets.ArtifactsValuesMatch | src/org/spdx/compare/FileArtifactOfSheet.java:73-109 | two missing or empty lists match; a missing list matches only an empty one; otherwise the lists match exactly when they have the same length and every project of the first has an equal one in the second |
| CompareSheets.ArtifactsMatchReflexive | src/org/spdx/compare/FileArtifactOfSheet.java:73-109 | when the string comparison is reflexive, every list matches itself |
| CompareSheets.ArtifactsMatchOneWay | src/org/spdx/compare/FileArtifactOfSheet.java:73-109 | the match is not symmetric: [p, p] matches [p, q], but [p, q] does not match [p, p] when q's name differs |
| CompareSheets.ContributorsValue | src/org/spdx/compare/FileContributorsSheet.java:52-63 | no contributors gives the empty text; otherwise they are joined with `, `, and a single one is itself |
| CompareSheets.ContributorsJoinContains | src/org/spdx/compare/FileContributorsSheet.java:52-63 | every contributor appears in the joined text |
| LicenseToc.GetLicenseIds | src/org/spdx/rdfparser/license/LicenseJsonTOC.java:109-118 | no license list gives the empty set; otherwise the IDs of the listed licenses |
| LicenseToc.IdsOfMembers | src/org/spdx/rdfparser/license/LicenseJsonTOC.java:114-116 | the set holds exactly the IDs of the listed licenses |
| LicenseToc.IdsOfSize | src/org/spdx/rdfparser/license/LicenseJsonTOC.java:114-116 | the set has at most one member per listed license, and exactly one when no two share an ID |

## Left out

- The RDF plumbing (Jena models, nodes, `populateModel`, the graph reads inside `verify`). It describes storage, not the logic modelled here.
- Reading the tag/value file, the `PrintWriter` output and the console messages. They are I/O; the model consumes `(tag, value)` pairs and produces lines and warning lists.
- Whole-document printing in `CommonCode` beyond the line formats modelled: `printDoc`, `printPackage`, `printFile`, `printSnippet`, `printLicense`, `printAnnotation`, `printRelationship`, `printExternalRef`, `printProject` and `printElementProperties`. They write the modelled value formats, one property per line, through a `PrintWriter`.
- Dates, UUIDs and the clock are parameters of the `Env` record, not computed.
- License expression parsing, the listed-license catalog and `SpdxVerificationHelper` are parameters (`Catalog`, `Env`, `Helpers`). Their own code is not part of this model.
- SHA-1 is the abstract function `Catalog.sha1Digest`. The model proves nothing about the digest's bytes beyond their use.
- The `File`/directory overload of `generatePackageVerificationCode` and `collectFileData`. They walk the file system.
- `VerificationCodeGen.GeneratePackageVerificationCode`: the skipped paths are a sequence of strings. The source also accepts a `null` array and `null` entries; it leaves them out of the skip set but returns the array unchanged, `null` entries included, as the excluded names. The model does not represent a missing array or missing entries.
- `addNameToWarnings` belongs to `SpdxElement`, which is not part of this model. It is the parameter `Catalog.nameWarning`; the model states where it is applied and that it rewrites each message in place, not what text it adds.
- The natural-order `Arrays.sort` of external references and files in `compareNewPackageExternalRefs` and `compareNewPackageFiles`, and the in-place sorting of the held package's arrays. Only the comparator sort inside `findExternalRefDifferences` acts on an array here; the model applies that sort to both inputs and states nothing about the natural order.
- `PackageComparison.PackageComparer.AddDocumentPackage`: a package whose external references are `null` is taken to have none.
- `ReferenceType.compareTo` is not part of this model. It is taken to order reference types by their URI, with a missing type first.
- `stringArraysEqual`, `stringsEqual`, `compareVerificationCodes`, the file comparer behind `fileDifferences` and `uniqueFiles`, and `isLicenseEqual` are parameters in `Helpers`. `FileContributorsSheet.valuesMatch` is only a call to `stringArraysEqual`, so it is not modelled on its own.
- `CompareSheets.ContributorsValue`: a `null` entry inside the contributor array is not modelled, because the contributors are a sequence of strings.
- `PackageComparison.PackageComparer.AddDocumentPackage`: after an error from a helper, the tables written so far are left as they are, with the comparer in progress. The contract says only that a progress error follows.
- `PackageComparison.PackageComparer.IsItemAspectEqual` stands for every getter `SpdxPackageComparer` inherits from `SpdxItemComparer`. They all behave the same way.
- The JSON deserialisation of `LicenseJsonTOC` is a library call. The table of contents is given as a value.
- `PackageComparison.CompareWithFirst`: when the declared-license comparison fails after the checksum table was written, the contract does not say which entries were already written.
- Case folding (`toUpperCase`, `compareToIgnoreCase`) covers ASCII letters only.
- `SpdxDocumentContainer` is not part of this model. The builder's document is an arena of files, packages and snippets with handles into it.
- Threads and synchronisation play no part in the modelled code.
- `TagBuilder.Builder.BuildDocument`: the dispatcher guarantees only the builder's invariant and its light error facts. What each tag does is stated by the builders it calls.
- `TagBuilder.Builder.BuildDocumentProperties`: it states only the unrecognised-tag and misplaced-annotation errors. The effect of each tag is stated by the setter it calls.
- `TagBuilder.Builder.BuildDocumentContent`: it states only when a document is created first and that element tags do not fail. The effects are stated by its callees.
- `TagBuilder.Builder.BuildFile`: it states only its error cases. The property updates are stated by `SetFileProperty`.
- `TagBuilder.Builder.BuildSnippet`: it states only its error cases. The property updates are stated by `SetSnippetProperty`.
- `TagBuilder.Builder.BuildPackage`: it states only its error cases. The property updates are stated by `SetPackageProperty`.
- `SpdxFileModel.Verify`: the messages of the inherited `super.verify()`, of each project's own `verify` and of each dependency's own `verify` (with the dependency's name) are parameters in `VerifyContext`. The source's recursion through the dependencies is not modelled; on a cycle of dependencies it would not end.
- `SpdxPackageModel.Verify`: the inherited `super.verify()` messages and each file's own messages, with the package name that `addNameToWarnings` adds, are parameters in `VerifyContext`. The "Invalid package declared license", "Invalid package files" and "Invalid package verification code" messages are not modelled. The source adds them when reading those parts from the RDF graph throws.
- `JavaStrings.CompareTo` compares Unicode code points and counts lengths in code points. Java's `String.compareTo` compares UTF-16 code units, so strings with characters outside the Basic Multilingual Plane can order differently: `"\uFFFF"` sorts after an emoji in Java and before it here. Every name and locator comparison built on it inherits this.
- `JavaStrings.ParseInt` accepts ASCII digits only. `Integer.parseInt` also accepts the other Unicode decimal digits, so an Arabic-Indic one after `SPDXRef-` reads as its value in Java and as -1 here.
- `SpdxDocumentModel.SpdxDocument.AddNewExtractedLicenseInfo`: the license IDs of the graph are the field `graphLicenseIds`. Only the document operations modelled here add to it: the data license and the extracted licenses. The licenses that files and packages bring into the same graph are not modelled.
- `SpdxDocumentModel.SpdxDocument.CreateSpdxAnalysis` takes "a namespace is set" to mean "the graph already holds a document". That decides whether the graph's license IDs are cleared.
- `PackageComparison.ComparePackage` picks the "first" held package with its own arbitrary choice, and the item comparer makes its own choice separately. In the source both come from iterating the same `HashMap`, so they always name the same document. The model does not promise that.

## Findings

| source | as written | input that shows it | evidently intended | confidence | as-written member | corrected member |
|---|---|---|---|---|---|---|
| src/org/spdx/tag/CommonCode.java:307 | the end pointer of a range is formatted by testing the start pointer's kind | a range from byte offset 1 to line 2 prints `1:[MISSING]` | the end pointer formatted by its own kind, giving `1:2` | not executed | TagPrinter.FormatPointerRangeAsWritten, TagPrinter.FormatPointerRangeDropsLineEnd | TagPrinter.FormatPointerRange, TagPrinter.ByteRangeRoundTrip, TagPrinter.LineRangeRoundTrip |
| src/org/spdx/tag/CommonCode.java:497-500 | the excluded-files text starts with `(` and puts `, ` before every name | one excluded file `a` prints `(, a)`, which reads back as an empty name and `a` | `(a)`, the names separated by `, ` | not executed | TagPrinter.ExcludedFilesSuffixAsWritten, TagPrinter.VerificationCodeAsWrittenAddsEmptyName | TagPrinter.VerificationCodeLines, TagPrinter.VerificationCodeRoundTrip |
| src/org/spdx/tag/BuildDocument.java:342-364 | a SnippetSPDXID inside an open snippet is routed to that snippet, whose builder only sets the SPDX ID | two snippets in a row: the second SnippetSPDXID renames the first snippet, and the second snippet is never created | every SnippetSPDXID starts a new snippet, as a second FileName or PackageName starts a new entity | not executed | TagEntities.RouteAsWritten, TagEntities.SecondSnippetIdRenamesAsWritten | TagEntities.Route, TagEntities.SnippetIdAlwaysStartsSnippet |
| src/org/spdx/tag/BuildDocument.java:1147-1151 | the end of the input attaches the open file but not the open snippet | a document whose last definition is a snippet loses that snippet | the open snippet is attached like the open file | not executed | TagBuilder.Builder.ExitAsWritten | TagBuilder.Builder.Exit, TagBuilder.Builder.FlushDefinitions |
| src/org/spdx/tag/BuildDocument.java:1323 | the warning loop under the snippet header iterates the missing dependencies | a snippet whose file ID matches no file gets a header followed by dependency names, or by nothing | the lines name the unmatched snippet file IDs | not executed | TagBuilder.Builder.AnnounceMissingAsWritten, TagStore.SnippetWarningsLoseIdAsWritten | TagBuilder.Builder.AnnounceMissing, TagStore.SnippetWarningsNameIds |
| src/org/spdx/tag/BuildDocument.java:1169-1188 | the check looks for a relationship in the list of packages, which never holds one, and reads element 0 of an empty package list | a document with one package and no relationships stays without a DESCRIBES relationship; a document without packages fails with an index error | a single package is described by the document unless a DESCRIBES relationship exists, and a document without packages is left alone | not executed | TagStore.SinglePackageDefaultAsWritten, TagStore.SinglePackageLeftUndescribedAsWritten | TagStore.SinglePackageDefault, TagBuilder.Builder.AddDefaultDescribes |
| src/org/spdx/compare/SpdxPackageComparer.java:115-123 | when the types tie, a present locator is compared with `compareTo` against a missing one | a reference with locator `pkg:a` against one without a locator throws a null-pointer error, while the other order gives -1 | a missing locator sorts first in both orders | not executed | ExternalRefComparison.CompareByTypeNameAsWritten, ExternalRefComparison.AsWrittenThrowsOnMissingLocator | ExternalRefComparison.CompareZeroIffSameKey, ExternalRefComparison.CompareTransitive |
| src/org/spdx/compare/SpdxPackageComparer.java:287 | the new document's map of unique references is stored under the other document's key | a held document 0 without references and a new document 1 with one: the reference unique to 1 is found under neither (1, 0) nor anywhere else | the unique references of the new document stored under (new, held) | not executed | PackageComparison.UniqueRefsAsWritten, PackageComparison.UniqueRefsAsWrittenLosesReferences | PackageComparison.CompareExternalRefsAgainstAll, PackageComparison.UniqueRefsRecordedMeaning |
| src/org/spdx/rdfparser/SPDXDocument.java:1028-1039 | the number of a `LicenseRef-N` ID is read with `Integer.decode`, which reads a leading 0 as octal and fails on an 8 or 9 after it, and `initializeNextLicenseRef` catches only `NonNumericLicenseIdException` | `LicenseRef-08` makes `initializeNextLicenseRef` throw a `NumberFormatException` | the digits read as a decimal number, so the next ID is `LicenseRef-9` | not executed | SpdxDocumentModel.LicenseRefNumAsWritten, SpdxDocumentModel.LicenseRefNumAsWrittenThrows, SpdxDocumentModel.NextLicenseRefAsWrittenFails | SpdxDocumentModel.LicenseRefNum, SpdxDocumentModel.SpdxDocument.InitializeNextLicenseRef, SpdxDocumentModel.NextLicenseRefFresh |
