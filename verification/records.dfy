/** The record and configuration shapes the upload manager works with
    (the component package's type declarations). */
module Records {
  import opened Results
  import opened Js

  /** `UploadedFileItemStage`. */
  datatype Stage = Idle | Finished | Failed | Uploading | Removing

  /** The `{ text, code }` error a host attaches to an upload. */
  datatype UploadError = UploadError(text: string, code: string)

  /** `UploadStatus`: every field is optional. */
  datatype UploadStatus = UploadStatus(stage: Option<Stage>, progress: Option<int>, error: Option<UploadError>)

  /** A browser `File` as far as the manager reads it. */
  datatype RawFile = RawFile(name: string, size: nat, mimeType: string)

  /** Metadata is an open key/value bag, i.e. a JavaScript object. */
  type Metadata = seq<Prop>

  /** `UploadedFilePublic`: what pre-processors receive and return.
      `previewImg` stands for `previewImg.imgBase64Uri`. */
  datatype PublicFile = PublicFile(
    id: string,
    file: Option<RawFile>,
    name: string,
    size: Option<int>,
    mimeType: string,
    base64Uri: Option<string>,
    previewImg: Option<string>,
    metadata: Option<Metadata>)

  /** `UploadedFile`: a public record plus its upload status and its
      1-based position `order`. */
  datatype UploadedFile = UploadedFile(
    id: string,
    file: Option<RawFile>,
    name: string,
    size: Option<int>,
    mimeType: string,
    base64Uri: Option<string>,
    previewImg: Option<string>,
    metadata: Option<Metadata>,
    uploadStatus: UploadStatus,
    order: int)

  /** `{ ...file, order, uploadStatus }`. */
  function Track(p: PublicFile, order: int, status: UploadStatus): (f: UploadedFile)
    ensures f.id == p.id && f.name == p.name && f.size == p.size && f.mimeType == p.mimeType
    ensures f.file == p.file && f.base64Uri == p.base64Uri && f.previewImg == p.previewImg
    ensures f.metadata == p.metadata && f.order == order && f.uploadStatus == status
  {
    UploadedFile(p.id, p.file, p.name, p.size, p.mimeType, p.base64Uri, p.previewImg, p.metadata, status, order)
  }

  /** The list invariant: `order` is the 1-based position of every record. */
  predicate Dense(files: seq<UploadedFile>) {
    forall i :: 0 <= i < |files| ==> files[i].order == i + 1
  }

  /** `UploadFileResult`, one per file the host reports on. */
  datatype UploadResult = UploadResult(fileId: string, success: bool, error: Option<UploadError>, metadata: Option<Metadata>)

  /** `FileUploadConfig` after the manager's destructuring defaults. */
  datatype Config = Config(
    mimeTypes: seq<string>,
    multiple: bool,
    maxFileSizeMb: real,
    maxFiles: Option<int>,
    resetOnFinish: bool,
    disableSorting: bool)

  /** `FileUploadConfig` as the host passes it. */
  datatype UserConfig = UserConfig(
    mimeTypes: Option<seq<string>>,
    multiple: Option<bool>,
    maxFileSizeMb: Option<real>,
    maxFiles: Option<int>,
    resetOnFinish: Option<bool>,
    disableSorting: Option<bool>)

  /** `config = defaultConfig` and the per-field defaults: multiple files
      allowed, 10 MB, no reset on finish, sorting enabled, and the image
      types among the supported MIME types (a list defined outside this
      model, hence a parameter). */
  function ResolveConfig(config: Option<UserConfig>, imageMimeTypes: seq<string>): (c: Config)
    ensures config.None? ==> c == Config(imageMimeTypes, true, 10.0, None, false, false)
    ensures config.Some? ==> c.maxFiles == config.value.maxFiles
    ensures config.Some? ==>
              c.mimeTypes == if config.value.mimeTypes.Some? then config.value.mimeTypes.value else imageMimeTypes
    ensures config.Some? ==>
              c.multiple == if config.value.multiple.Some? then config.value.multiple.value else true
    ensures config.Some? ==>
              c.maxFileSizeMb == if config.value.maxFileSizeMb.Some? then config.value.maxFileSizeMb.value else 10.0
    ensures config.Some? ==>
              c.resetOnFinish == if config.value.resetOnFinish.Some? then config.value.resetOnFinish.value else false
    ensures config.Some? ==>
              c.disableSorting == if config.value.disableSorting.Some? then config.value.disableSorting.value else false
  {
    var u := config.GetOr(UserConfig(Some(imageMimeTypes), Some(true), Some(10.0), None, Some(false), Some(false)));
    Config(u.mimeTypes.GetOr(imageMimeTypes), u.multiple.GetOr(true), u.maxFileSizeMb.GetOr(10.0),
           u.maxFiles, u.resetOnFinish.GetOr(false), u.disableSorting.GetOr(false))
  }

  /** Leaving the whole configuration out is the same as passing one with
      every field left out. */
  lemma MissingConfigIsEmptyConfig(imageMimeTypes: seq<string>)
    ensures ResolveConfig(None, imageMimeTypes)
         == ResolveConfig(Some(UserConfig(None, None, None, None, None, None)), imageMimeTypes)
  {
  }

  /** What validation reads of a `File` or of a public record. */
  datatype Descriptor = Descriptor(name: string, size: Option<int>, mimeType: string)

  function DescribeRaw(f: RawFile): Descriptor {
    Descriptor(f.name, Some(f.size), f.mimeType)
  }

  function DescribePublic(f: PublicFile): Descriptor {
    Descriptor(f.name, f.size, f.mimeType)
  }
}
