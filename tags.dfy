// The tag/value tags. The tag texts come from a properties table that is not
// part of this model; the reader recognises a tag through `TagOf`, which is
// given the normalised tag text and answers which property (if any) it is.

module Tags {
  import opened Wrappers

  /** Every property the tag/value reader and printer know, one constructor per
    * entry of the properties table. */
  datatype Tag =
    // document creation information
    | SpdxVersion | SpdxDataLicense | DocumentName | DocumentNamespace | ElementId
    | ExternalDocUri | CreationCreator | CreationCreated | CreationComment
    | LicenseListVersion | SpdxComment
    | ReviewReviewer | ReviewDate | ReviewComment
    // relationships and annotations
    | RelationshipTag | RelationshipComment
    | Annotator | AnnotationDate | AnnotationComment | AnnotationId | AnnotationType
    // extracted licenses
    | LicenseId | ExtractedText | LicenseText | LicenseName | SourceUrls | LicenseComment
    // packages
    | PackageDeclaredName | PackageComment | PackageFileName | PackageChecksum
    | PackageDownloadUrl | PackageSourceInfo | PackageDeclaredLicense
    | PackageConcludedLicense | PackageDeclaredCopyright | PackageShortDesc
    | PackageDescription | PackageVerificationCode | PackageLicenseInfoFromFiles
    | PackageLicenseComment | PackageVersionInfo | PackageOriginator | PackageSupplier
    | PackageHomepageUrl | ExternalReference | ExternalReferenceComment
    | PackageFilesAnalyzed
    // files
    | FileName | FileTypeTag | FileLicense | FileCopyright | FileChecksum | FileSeenLicense
    | FileLicComments | FileComment | FileDependency | FileContributor | FileNoticeText
    | ProjectName | ProjectHomepage | ProjectUri
    // snippets
    | SnippetSpdxId | SnippetFromFileId | SnippetByteRange | SnippetLineRange
    | SnippetConcludedLicense | SnippetLicComments | SnippetCopyright | SnippetComment
    | SnippetName | SnippetSeenLicense

  /** The tags an open annotation accepts. */
  predicate AnnotationTags(t: Tag)
  {
    t in {AnnotationDate, AnnotationComment, AnnotationId, AnnotationType}
  }

  /** The tags an open file accepts (its own properties, its projects, the
    * document namespace, relationships and annotations). */
  predicate FileTags(t: Tag)
  {
    t in {FileTypeTag, FileLicense, FileCopyright, FileChecksum, FileSeenLicense,
          FileLicComments, FileComment, FileDependency, FileContributor, FileNoticeText,
          ElementId, ProjectName, ProjectHomepage, ProjectUri, DocumentNamespace,
          RelationshipTag, RelationshipComment,
          Annotator, AnnotationDate, AnnotationComment, AnnotationId, AnnotationType}
  }

  /** The tags an open snippet accepts. */
  predicate SnippetTags(t: Tag)
  {
    t in {SnippetSpdxId, SnippetFromFileId, SnippetByteRange, SnippetLineRange,
          SnippetConcludedLicense, SnippetLicComments, SnippetCopyright, SnippetComment,
          SnippetName, SnippetSeenLicense, DocumentNamespace,
          RelationshipTag, RelationshipComment,
          Annotator, AnnotationDate, AnnotationComment, AnnotationId, AnnotationType}
  }

  /** The tags an open package accepts, including the start of a file inside it. */
  predicate PackageTags(t: Tag)
  {
    t in {PackageComment, PackageFileName, PackageChecksum, PackageDownloadUrl,
          PackageSourceInfo, PackageDeclaredLicense, PackageConcludedLicense,
          PackageDeclaredCopyright, PackageShortDesc, PackageDescription,
          PackageVerificationCode, PackageLicenseInfoFromFiles, PackageLicenseComment,
          PackageVersionInfo, PackageOriginator, PackageSupplier, PackageHomepageUrl,
          ElementId, FileName, RelationshipTag, RelationshipComment,
          Annotator, AnnotationDate, AnnotationComment, AnnotationId, AnnotationType,
          ExternalReference, ExternalReferenceComment, PackageFilesAnalyzed}
  }

  /** The tags an open extracted license accepts. */
  predicate ExtractedLicenseTags(t: Tag)
  {
    t in {LicenseText, ExtractedText, LicenseComment, LicenseName, SourceUrls}
  }

  /** The annotation tags are accepted by every entity except an extracted
    * license, so an open annotation takes precedence over the entity it is in. */
  lemma AnnotationTagsShared(t: Tag)
    requires AnnotationTags(t)
    ensures FileTags(t) && SnippetTags(t) && PackageTags(t) && !ExtractedLicenseTags(t)
  {
  }
}
