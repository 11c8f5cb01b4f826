/**
 * The part of the host filesystem the orchestrator touches: a map from path
 * to a regular file.  Only the calls the script makes are modelled
 * (`existsSync`, `statSync().mode`, `writeFileSync`/`createWriteStream`,
 * `chmodSync`, `unlinkSync`).
 */
module Files {

  /** A regular file: its mode as `statSync` reports it, and its content. */
  datatype Entry = Entry(mode: bv32, content: string)

  class Disk {
    var files: map<string, Entry>

    /** The mode a newly created file receives (0o666 under the process umask). */
    const createMode: bv32

    constructor (initial: map<string, Entry>, createMode: bv32)
      ensures files == initial && this.createMode == createMode
    {
      files := initial;
      this.createMode := createMode;
    }

    /** `fs.existsSync(path)`. */
    predicate Exists(path: string)
      reads this
    {
      path in files
    }

    /** `fs.statSync(path).mode`. */
    function Mode(path: string): bv32
      reads this
      requires path in files
    {
      files[path].mode
    }

    /**
     * `fs.writeFileSync(path, content)`, or a write stream opened on `path`
     * that receives `content`: the file is created or truncated; an existing
     * file keeps its mode.
     */
    method WriteFile(path: string, content: string)
      modifies this
      ensures files == old(files)[path := Entry(
        if path in old(files) then old(files)[path].mode else createMode, content)]
    {
      var mode := if path in files then files[path].mode else createMode;
      files := files[path := Entry(mode, content)];
    }

    /** `fs.chmodSync(path, mode)`: the content is untouched. */
    method Chmod(path: string, mode: bv32)
      requires path in files
      modifies this
      ensures files == old(files)[path := Entry(mode, old(files)[path].content)]
    {
      files := files[path := Entry(mode, files[path].content)];
    }

    /** `fs.unlinkSync(path)`. */
    method Unlink(path: string) returns (removed: bool)
      modifies this
      ensures removed <==> path in old(files)
      ensures files == old(files) - {path}
    {
      removed := path in files;
      files := files - {path};
    }
  }
}
