/** The exceptions that end a run of the program early. */
module Faults {

  datatype Fault =
      /** ArgumentException from the processor lookup when no processor has the requested name. */
    | UnknownMediaProcessor(message: string)
      /** FileNotFoundException from reading a configuration file that is not there. */
    | ConfigurationNotFound(path: string)
      /** An existing-asset id that matched no asset reached the task's input collection as null. */
    | NullInputAsset
      /** InvalidOperationException from First() on a task list or error list that is empty. */
    | NoErrorDetail
      /** ArgumentOutOfRangeException from indexing an empty output asset list. */
    | NoOutputAsset
      /** NullReferenceException from downloading the files of a null asset. */
    | NullAssetDownload
}
