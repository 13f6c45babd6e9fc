/**
 * The data the pattern engine fills in and the diagram generator reads: one
 * record per extracted name (a Python dict from property names to strings),
 * and the scanner's per-file record, whose list fields the pattern engine
 * extends in place.
 */
module CodeFiles {

  datatype Option<T> = None | Some(value: T)

  /** One extracted item, e.g. `{'param': 'Foo', 'from_path': './x'}`. */
  type Record = map<string, string>

  /** The list fields of a scanned file that a rule can add to (`add_to`). */
  datatype ListField = Imports | Exports | LocalParams | Blocks

  /** The text fields of a scanned file (one of them names the diagram entity). */
  datatype TextField = Directory | BaseName | Extension

  /**
   * A scanned source file. The text fields are fixed when the file is found;
   * the four record lists start empty and grow as lines are matched.
   */
  class CodeFile {
    const directory: string
    const baseName: string
    const extension: string
    var imports: seq<Record>
    var exports: seq<Record>
    var localParams: seq<Record>
    var blocks: seq<Record>

    constructor (directory: string, baseName: string, extension: string)
      ensures this.directory == directory && this.baseName == baseName && this.extension == extension
      ensures imports == exports == localParams == blocks == []
    {
      this.directory, this.baseName, this.extension := directory, baseName, extension;
      imports, exports, localParams, blocks := [], [], [], [];
    }

    /** `item[item._fields.index(f)]` for a text field. */
    function Text(f: TextField): string
    {
      match f
      case Directory => directory
      case BaseName => baseName
      case Extension => extension
    }

    /** `item[item._fields.index(f)]` for a list field. */
    function List(f: ListField): seq<Record>
      reads this
    {
      match f
      case Imports => imports
      case Exports => exports
      case LocalParams => localParams
      case Blocks => blocks
    }

    /** `item[item._fields.index(f)].extend(items)`: appends to one list, leaves the others. */
    method Extend(f: ListField, items: seq<Record>)
      modifies this
      ensures List(f) == old(List(f)) + items
      ensures forall g :: g != f ==> List(g) == old(List(g))
    {
      match f
      case Imports => imports := imports + items;
      case Exports => exports := exports + items;
      case LocalParams => localParams := localParams + items;
      case Blocks => blocks := blocks + items;
    }
  }
}
