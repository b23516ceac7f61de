/** A directory tree reduced to what the report writers need: a map from a
    path to the content last written there, and the order of the writes. */
module Files {

  class FileStore<C> {
    /** Each path holds the content of its most recent write only. */
    var files: map<string, C>
    /** Every path written, in the order of the writes. */
    var writes: seq<string>

    constructor ()
      ensures files == map[] && writes == []
    {
      files := map[];
      writes := [];
    }

    /** `Path.write_text` / `fs.writeFileSync`: replaces the whole file. */
    method Write(path: string, content: C)
      modifies this
      ensures files == old(files)[path := content]
      ensures writes == old(writes) + [path]
    {
      files := files[path := content];
      writes := writes + [path];
    }
  }
}
