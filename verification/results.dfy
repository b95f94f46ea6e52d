/** Failure-compatible wrappers and the closed set of errors the tool raises.

    Every exception the modelled Python code can raise on a path the model
    covers becomes one `Error` constructor; a function that can raise returns
    a `Result` instead. */
module Results {

  /** Python's `None` / a value. */
  datatype Option<+T> = None | Some(value: T)

  /** The exceptions of the modelled code, named after what goes wrong. */
  datatype Error =
      /** `ValueError` from `_ensure_property`: no value and no usable default. */
    | Mandatory(section: string, prop: string)
      /** `FileNotFoundError` raised with the missing path as its message. */
    | FileNotFound(path: string)
      /** The `FileNotFoundError` of `shutil.copy` when the file to copy is missing. */
    | NoSuchFile(path: string)
      /** `FileNotFoundError` raised by the resolver for a properties file it cannot find. */
    | PropertiesNotFound(path: string)
      /** `KeyError`: a section looked up by name is not in the store. */
    | MissingSection(section: string)
      /** `KeyError`: an option looked up by name is not in its section. */
    | MissingKey(section: string, prop: string)
      /** `ValueError` from the svn action table. */
    | UnknownAction(action: string)
      /** `IndexError`: a positional argument that was not supplied. */
    | MissingArgument(index: nat)
      /** `TypeError`: a command-line option that is `None` was concatenated to a string. */
    | NoneOption(option: string)
      /** `DistutilsFileError` of `dir_util.copy_tree` when the tree to copy is missing. */
    | NotADirectory(path: string)

  /** The message text each exception carries. */
  function Message(e: Error): string
  {
    match e
    case Mandatory(s, p) => "Property " + s + "." + p + " is mandatory"
    case FileNotFound(path) => path
    case NoSuchFile(path) => "[Errno 2] No such file or directory: '" + path + "'"
    case PropertiesNotFound(path) => "Cannot find properties file: " + path
    case MissingSection(s) => "'" + s + "'"
    case MissingKey(s, p) => "'" + p + "'"
    case UnknownAction(a) => "Unknown action: " + a
    case MissingArgument(i) => "list index out of range"
    case NoneOption(o) => "can only concatenate str (not \"NoneType\") to str"
    case NotADirectory(path) => "cannot copy tree '" + path + "': not a directory"
  }

  /** A value or the error that stopped the computation; usable with `:-`. */
  datatype Result<+T> = Ok(value: T) | Err(error: Error) {

    predicate IsFailure() {
      Err?
    }

    function PropagateFailure<U>(): Result<U>
      requires Err?
    {
      Err(error)
    }

    function Extract(): T
      requires Ok?
    {
      value
    }
  }
}
