/** The error kinds the background jobs report. */
module Jobs {
  datatype JobError =
    | Payload
    | StartingDownloader
    | ReadingInfoJson
    | TempDir
    | StartingFfmpeg
    | ExtractingAudio
    | StorageDownload
    | StorageUpload
    | ExtractingImages
    | ReadImage
    | CalculatingSimilarity
    | Thumbnail
    | Transcribe
    | NoTranscript
    | Summarizing
    | Db
    | Queue
}
