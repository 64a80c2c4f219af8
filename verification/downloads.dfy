/** What the three download tools have in common: the record a successful
    retrieval produces, the extension reported next to it, and the metadata
    that accompanies the blob message.
 */
module Downloads {
  import opened Results
  import opened Text
  import opened PosixPath

  /** A retrieved file: its bytes, the name it is given, its content type and
      its size in bytes. */
  datatype Download = Download(content: seq<byte>, filename: string, contentType: string, size: nat)

  /** The metadata of the blob message. `isImage` stands for the three keys
      `is_image`, `display_as_image` and `type` that are added together. */
  datatype FileMetadata = FileMetadata(
    filename: string, contentType: string, size: nat, mimeType: string,
    extension: string, isImage: bool)

  /** The `Content-Type` assumed when a response carries none. */
  const DefaultContentType: string := "application/octet-stream"

  const ImagePrefix: string := "image/"

  predicate IsImage(contentType: string) {
    StartsWith(contentType, ImagePrefix)
  }

  /** The reported extension: the one `splitext` finds in the filename, or
      `fallback` when there is none. */
  function ResolveExtension(filename: string, fallback: string): (r: string)
    ensures Splitext(filename).1 != [] ==> r != [] && r[0] == '.' && |r| <= |filename| && filename[|filename| - |r|..] == r
    ensures Splitext(filename).1 == [] ==> r == fallback
  {
    var (root, ext) := Splitext(filename);
    if ext != [] then
      assert filename == root + ext;
      ext
    else fallback
  }

  /** The metadata of a download: name, type, size and extension copied over,
      and the image flags exactly for `image/` content types. */
  function MetadataOf(d: Download, extension: string): (m: FileMetadata)
    ensures m.filename == d.filename && m.size == d.size && m.extension == extension
    ensures m.contentType == d.contentType && m.mimeType == d.contentType
    ensures m.isImage <==> StartsWith(d.contentType, "image/")
  {
    FileMetadata(d.filename, d.contentType, d.size, d.contentType, extension, IsImage(d.contentType))
  }

  /** A filename's own extension, once found, does not depend on the content
      type. */
  lemma OwnExtensionWins(filename: string, fallback1: string, fallback2: string)
    requires Splitext(filename).1 != []
    ensures ResolveExtension(filename, fallback1) == ResolveExtension(filename, fallback2)
  {
  }
}
