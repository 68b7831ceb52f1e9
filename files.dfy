/**
  The part of the disk the command reads and writes through Laravel's `File`
  facade: the contents of each file, by path. Directories are not modelled
  (a path of the map stands for a file whose directory exists).
 */
module Files {

  class Filesystem {
    /** The contents of every existing file, by path. */
    var files: map<string, string>

    constructor (initial: map<string, string>)
      ensures files == initial
    {
      files := initial;
    }

    /** `File::exists($path)`. */
    predicate Exists(path: string)
      reads this
    {
      path in files
    }

    /** `File::get($path)` of an existing file. */
    function Get(path: string): (content: string)
      reads this
      requires Exists(path)
      ensures content == files[path]
    {
      files[path]
    }

    /** `File::put($path, $content)`: the file is created or overwritten; no other file changes. */
    method Put(path: string, content: string)
      modifies this
      ensures files == old(files)[path := content]
    {
      files := files[path := content];
    }

    /** `File::append($path, $content)`: the text goes at the end; a missing file is created. */
    method Append(path: string, content: string)
      modifies this
      ensures files == old(files)[path := (if path in old(files) then old(files)[path] else "") + content]
    {
      var before := if path in files then files[path] else "";
      files := files[path := before + content];
    }
  }
}
