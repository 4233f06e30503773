/**
  The part of the file system the pipeline writes: a map from path to the
  content last written there. Directory creation always succeeds here.
 */
module Files {
  import opened Json
  import opened Document

  datatype File =
    | JsonFile(value: Json)
    | TextFile(text: string)
    /** A document built from these blocks. */
    | PdfFile(blocks: seq<Block>)

  /** `Path(dir) / name`. */
  function PathJoin(dir: string, name: string): string {
    dir + "/" + name
  }

  class Disk {
    var files: map<string, File>

    constructor ()
      ensures files == map[]
    {
      files := map[];
    }

    /** Opens `path` for writing (truncating it) and writes `f`. */
    method Write(path: string, f: File)
      modifies this
      ensures files == old(files)[path := f]
    {
      files := files[path := f];
    }

    /** Appends to a text file already open for writing. */
    method Append(path: string, text: string)
      requires path in files && files[path].TextFile?
      modifies this
      ensures files == old(files)[path := TextFile(old(files)[path].text + text)]
    {
      files := files[path := TextFile(files[path].text + text)];
    }
  }
}
