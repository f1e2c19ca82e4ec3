/** Results, errors and options shared by every module of the model. */
module Common {

  type Id = nat

  datatype Option<+T> = None | Some(value: T)

  /** The error values the services return; each stands for the Go sentinel of the same name. */
  datatype Error =
    | PathInvalid
    | FileNameInvalid
    | NameConflict
    | FileNotFound
    | FileAlreadyExists
    | NoBackingStorage
    | SourceOperationUnsupported
    | SourceMountPathConflict
    | TaskInvalidState
    | MetadataCommitFailed
    | DownloadLinkUnsupported
    | UploadInvalidState
    | UploadChunkConflict
    | UploadFinishIncomplete
    | UploadHashMismatch
    | SourceDriverUnsupported
    | VFSSyncConflict
    | Provider(code: nat)
    | Message(text: string)

  datatype Result<+T> = Ok(value: T) | Err(error: Error)
}
