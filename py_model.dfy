/**
 * Plain-data stand-ins for the live Python objects the crash reporter inspects:
 * values (through what `repr`, `isinstance`, `hasattr`, `len`, `dir` and `type`
 * would tell about them), frames, the traceback chain, exception classes and
 * source files (through `linecache.getline`).
 */
module PyModel {
  import opened Wrappers

  /** The outcome of calling `repr` on a value: its text, or the text of the exception it raised */
  datatype Repr = Printed(text: string) | ReprFailed(error: string)

  /** A dictionary key, through `str(k)` and `repr(k)` */
  datatype DictKey = DictKey(str: string, repr: string)

  /** What the reporter can learn about one live value */
  datatype PyValue = PyValue(
    repr: Repr,                     // repr(val)
    dictKeys: Option<seq<DictKey>>, // Some(keys in dict order) iff isinstance(val, dict)
    length: Option<nat>,            // Some(len(val)) iff hasattr(val, '__len__'); stands for a len that succeeds
    isListOrTuple: bool,            // isinstance(val, (list, tuple))
    dirNames: seq<string>,          // dir(val)
    typeName: string)               // type(val).__name__

  /** One entry of `frame.f_locals`, in the dictionary's order */
  datatype Local = Local(name: string, value: PyValue)

  /** A frame: its locals, `f_code.co_filename` and `f_code.co_name` */
  datatype Frame = Frame(locals: seq<Local>, filename: string, codeName: string)

  /** One link of the traceback chain: `tb_frame`, `tb_lineno` and `tb_next` */
  datatype Traceback = Traceback(frame: Frame, lineno: nat, next: Option<Traceback>)

  /** An exception class: its `__name__` and the answers of `issubclass` against the classes the reporter tests */
  datatype ExcType = ExcType(
    name: string,
    isKeyError: bool,
    isIndexError: bool,
    isTypeError: bool,
    isAttributeError: bool,
    isNameError: bool)

  /** The lines of a source file, each with its line terminator; a missing file has none */
  function SourceOf(files: map<string, seq<string>>, filename: string): (src: seq<string>)
    ensures filename !in files ==> src == []
  {
    if filename in files then files[filename] else []
  }

  /** `linecache.getline(filename, i)`: line `i` (counting from 1), or "" when there is no such line */
  function Getline(src: seq<string>, i: int): (line: string)
    ensures 1 <= i <= |src| ==> line == src[i - 1]
    ensures !(1 <= i <= |src|) ==> line == ""
  {
    if 1 <= i <= |src| then src[i - 1] else ""
  }
}
