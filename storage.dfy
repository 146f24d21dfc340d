/** The public storage disk, reduced to the set of paths it holds. Where a
    stored file gets its name is the framework's business: the caller passes
    the path the disk hands out. */
module Storage {
  import opened Common

  class Disk {
    var files: set<Path>

    constructor (files: set<Path>)
      ensures this.files == files
    {
      this.files := files;
    }

    /** `$file->store('posts', 'public')`: the upload now exists at `path` */
    method Put(path: Path)
      modifies this
      ensures files == old(files) + {path}
    {
      files := files + {path};
    }

    /** `Storage::disk('public')->delete($path)`: the file is gone; deleting a
        missing file is a no-op. */
    method Delete(path: Path)
      modifies this
      ensures files == old(files) - {path}
    {
      files := files - {path};
    }
  }
}
