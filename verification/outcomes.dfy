/** Results of the script's steps: a value, or the exception that stops the
    step. The script never catches these, so a failure ends the run. */
module Outcomes {

  datatype Option<T> = None | Some(value: T)

  /** The exceptions the modelled steps can raise, with the path involved. */
  datatype Failure =
    | OpenFailed(path: string)              // IOError/OSError: missing file, dangling link or link loop
    | MagicIndexError(path: string)         // IndexError: a short file whose bytes all match the ELF magic so far
    | IsADirectory(path: string)            // IOError: a copy source or destination is a directory
    | SameFile(src: string, dst: string)    // shutil.Error: copy source and destination are one file
    | NoSuchDirectory(path: string)         // OSError from os.listdir

  datatype Result<T> = Ok(value: T) | Err(error: Failure)
}
