/** The values the duplicate-image command reads: a product's media gallery
    entries and the storage the image files live in. */
module MediaGallery {

  /** One media gallery entry of a product: the file reference (relative to
      the catalog/product media directory, e.g. "/a/b/ab.jpg") and the image
      roles (image, small_image, thumbnail, swatch_image, ...) assigned to it. */
  datatype Entry = Entry(file: string, types: seq<string>)

  /** An entry with at least one role is pinned: it is never removed. */
  predicate Pinned(e: Entry)
  {
    |e.types| > 0
  }

  /** The storage, seen only through the questions the command asks of it,
      each a function of a full path:
      - isExists: the file driver's existence test (an exception reads as false);
      - md5: the content digest of an existing file;
      - isFile: whether the path is a regular file (an exception reads as false);
      - deleteFails: whether deleting the file raises a file-system exception. */
  datatype FileSystem = FileSystem(
    isExists: string -> bool,
    md5: string -> string,
    isFile: string -> bool,
    deleteFails: string -> bool)

  /** The storage as it answers once the files in `removed` are deleted:
      a deleted path no longer exists and is no longer a regular file; the
      other answers are those of `disk`. */
  function Gone(disk: FileSystem, removed: set<string>): (fs: FileSystem)
    ensures forall p :: fs.isExists(p) <==> disk.isExists(p) && p !in removed
    ensures forall p :: fs.isFile(p) <==> disk.isFile(p) && p !in removed
    ensures fs.md5 == disk.md5 && fs.deleteFails == disk.deleteFails
  {
    FileSystem(p => disk.isExists(p) && p !in removed, disk.md5,
               p => disk.isFile(p) && p !in removed, disk.deleteFails)
  }

  /** The file driver the command deletes through. `disk` is the storage as
      it was when the run began; `removed` grows with every file the run
      deletes, and every later question is answered by `Gone(disk, removed)`. */
  class FileDriver {
    const disk: FileSystem
    var removed: set<string>

    constructor (disk: FileSystem)
      ensures this.disk == disk && removed == {}
    {
      this.disk := disk;
      removed := {};
    }

    /** The driver's regular-file test on the current storage. */
    predicate IsFile(path: string)
      reads this
    {
      disk.isFile(path) && path !in removed
    }

    /** Deletes `path`; `failed` is the file-system exception, after which
        the file is still there. */
    method DeleteFile(path: string) returns (failed: bool)
      modifies this
      ensures failed == disk.deleteFails(path)
      ensures removed == if failed then old(removed) else old(removed) + {path}
    {
      failed := disk.deleteFails(path);
      if !failed {
        removed := removed + {path};
      }
    }
  }

  /** Directory of product images below the media root. */
  const ProductMediaDir: string := "/catalog/product"

  /** The full path of a gallery file: media root, product directory, file reference. */
  function ImagePath(mediaRoot: string, file: string): (p: string)
    ensures |p| == |mediaRoot| + |ProductMediaDir| + |file|
    ensures p[..|mediaRoot|] == mediaRoot
    ensures p[|mediaRoot|..|mediaRoot| + |ProductMediaDir|] == ProductMediaDir
    ensures p[|p| - |file|..] == file
  {
    mediaRoot + ProductMediaDir + file
  }

  /** Under one media root, two file references give the same path exactly
      when they are the same reference. */
  lemma ImagePathInjective(mediaRoot: string, f1: string, f2: string)
    ensures ImagePath(mediaRoot, f1) == ImagePath(mediaRoot, f2) <==> f1 == f2
  {
  }
}
