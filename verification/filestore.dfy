/** The part of the filesystem the node runner touches: parquet files by path,
    and directories. */
module FileStore {
  import opened Wrappers
  import opened Frames

  /** `pd.read_parquet(path)` against the files `files`. */
  function ReadParquet(files: map<string, Table>, path: string): (r: Result<Table>)
    ensures r.Ok? <==> path in files
    ensures r.Ok? ==> r.value == files[path]
    ensures r.Err? ==> r.error == FileNotFoundError(path)
  {
    if path in files then Ok(files[path]) else Err(FileNotFoundError(path))
  }

  class Store {
    var files: map<string, Table>
    var dirs: set<string>

    constructor (files: map<string, Table>, dirs: set<string>)
      ensures this.files == files && this.dirs == dirs
    {
      this.files := files;
      this.dirs := dirs;
    }

    /** `os.path.exists(path)`. */
    predicate Exists(path: string)
      reads this
    {
      path in files || path in dirs
    }

    /** `os.makedirs(path)`. */
    method MakeDirs(path: string)
      modifies this
      ensures dirs == old(dirs) + {path} && files == old(files)
    {
      dirs := dirs + {path};
    }

    /** `table.to_parquet(path, index=False)`: the file at `path` now holds `table`. */
    method WriteParquet(path: string, table: Table)
      modifies this
      ensures files == old(files)[path := table] && dirs == old(dirs)
    {
      files := files[path := table];
    }
  }
}
