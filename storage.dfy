/**
 * The local file system as far as the pipeline writes to it: a map from
 * path to contents, replaced whole by every write (`open(path, "wb")`).
 */
module Storage {
  import opened Wrappers

  /** File contents: raw bytes. */
  type Bytes = seq<bv8>

  class FileStore {
    var files: map<string, Bytes>

    constructor (initial: map<string, Bytes>)
      ensures files == initial
    {
      files := initial;
    }

    /** `os.path.exists(path)` */
    predicate Exists(path: string)
      reads this
    {
      path in files
    }

    /** The contents of `path`, if there is such a file. */
    function Contents(path: string): (r: Option<Bytes>)
      reads this
      ensures r.Some? <==> Exists(path)
      ensures r.Some? ==> r.value == files[path]
    {
      if path in files then Some(files[path]) else None
    }

    /** Open for binary writing and write: the file holds exactly `data`, other files are untouched. */
    method Write(path: string, data: Bytes)
      modifies this
      ensures files == old(files)[path := data]
      ensures Contents(path) == Some(data)
      ensures forall p :: p != path ==> Contents(p) == old(Contents(p))
    {
      files := files[path := data];
    }
  }
}
