/**
 * The image step of src/generators/image_generator.py (`generate_image`):
 * the streamed response is folded chunk by chunk, and every chunk whose
 * first part carries inline data is written to `<dir>/<name><ext>`. The
 * model's stream and `mimetypes.guess_extension` are parameters.
 */
module ImageGenerator {
  import opened Wrappers
  import opened PyText
  import Storage

  /** An inline blob: its mime type and bytes. */
  datatype InlineData = InlineData(mimeType: string, data: Storage.Bytes)

  /** A response part: inline data, if any. */
  datatype Part = Part(inlineData: Option<InlineData>)

  /** A candidate: its content, if any, as a list of parts. */
  datatype Candidate = Candidate(content: Option<seq<Part>>)

  /** One streamed chunk: its list of candidates. */
  datatype Chunk = Chunk(candidates: seq<Candidate>)

  /** The extension used when `guess_extension` knows none. */
  const DefaultExtension := ".jpg"

  /**
   * The inline data a chunk carries: none for a chunk without candidates,
   * without content or without parts; otherwise that of the first part of
   * the first candidate.
   */
  function ImageOf(chunk: Chunk): Option<InlineData>
  {
    if chunk.candidates == [] || chunk.candidates[0].content.None? || chunk.candidates[0].content.value == []
    then None
    else chunk.candidates[0].content.value[0].inlineData
  }

  /** `mimetypes.guess_extension(mime) or ".jpg"` */
  function Extension(mimeType: string, guess: string -> Option<string>): (ext: string)
    ensures ext != ""
  {
    if guess(mimeType).Some? && guess(mimeType).value != "" then guess(mimeType).value else DefaultExtension
  }

  /** `os.path.join(dir, f"{name}{ext}")` */
  function ImagePath(dir: string, name: string, image: InlineData, guess: string -> Option<string>): (p: string)
    ensures EndsWith(p, name + Extension(image.mimeType, guess))
  {
    PathJoin(dir, name + Extension(image.mimeType, guess))
  }

  /** The paths saved for a stream, one per image-bearing chunk, in stream order. */
  function SavedPaths(chunks: seq<Chunk>, dir: string, name: string, guess: string -> Option<string>): seq<string>
  {
    if chunks == [] then []
    else
      var init := SavedPaths(chunks[..|chunks| - 1], dir, name, guess);
      match ImageOf(chunks[|chunks| - 1])
      case None => init
      case Some(image) => init + [ImagePath(dir, name, image, guess)]
  }

  /** The files after the stream: each image written over whatever its path held before. */
  function Written(files: map<string, Storage.Bytes>, chunks: seq<Chunk>, dir: string, name: string,
                   guess: string -> Option<string>): map<string, Storage.Bytes>
  {
    if chunks == [] then files
    else
      var before := Written(files, chunks[..|chunks| - 1], dir, name, guess);
      match ImageOf(chunks[|chunks| - 1])
      case None => before
      case Some(image) => before[ImagePath(dir, name, image, guess) := image.data]
  }

  /** The number of chunks that carry an image. */
  function ImageCount(chunks: seq<Chunk>): nat
  {
    if chunks == [] then 0
    else ImageCount(chunks[..|chunks| - 1]) + (if ImageOf(chunks[|chunks| - 1]).Some? then 1 else 0)
  }

  /**
   * One path per image-bearing chunk (so none when no chunk carries one),
   * each of them `<dir>/<name><ext>` for the extension of some chunk.
   */
  lemma {:induction false} SavedPathsShape(chunks: seq<Chunk>, dir: string, name: string, guess: string -> Option<string>)
    ensures |SavedPaths(chunks, dir, name, guess)| == ImageCount(chunks)
    ensures forall k :: 0 <= k < |SavedPaths(chunks, dir, name, guess)| ==>
      exists i :: 0 <= i < |chunks| && ImageOf(chunks[i]).Some?
        && SavedPaths(chunks, dir, name, guess)[k] == ImagePath(dir, name, ImageOf(chunks[i]).value, guess)
  {
    if chunks != [] {
      var init := chunks[..|chunks| - 1];
      SavedPathsShape(init, dir, name, guess);
      var s := SavedPaths(chunks, dir, name, guess);
      var s0 := SavedPaths(init, dir, name, guess);
      forall k | 0 <= k < |s|
        ensures exists i :: (0 <= i < |chunks| && ImageOf(chunks[i]).Some?
          && s[k] == ImagePath(dir, name, ImageOf(chunks[i]).value, guess))
      {
        if k < |s0| {
          var i :| 0 <= i < |init| && ImageOf(init[i]).Some?
            && s0[k] == ImagePath(dir, name, ImageOf(init[i]).value, guess);
          assert chunks[i] == init[i];
        } else {
          assert ImageOf(chunks[|chunks| - 1]).Some?;
        }
      }
    }
  }

  /** A chunk without an image changes neither the saved paths nor the files. */
  lemma {:induction false} SkippedChunk(a: seq<Chunk>, c: Chunk, b: seq<Chunk>, files: map<string, Storage.Bytes>,
                                         dir: string, name: string, guess: string -> Option<string>)
    requires ImageOf(c).None?
    ensures SavedPaths(a + [c] + b, dir, name, guess) == SavedPaths(a + b, dir, name, guess)
    ensures Written(files, a + [c] + b, dir, name, guess) == Written(files, a + b, dir, name, guess)
    decreases |b|
  {
    if b == [] {
      assert (a + [c] + b)[..|a|] == a;
      assert a + b == a;
    } else {
      var b' := b[..|b| - 1];
      assert (a + [c] + b)[..|a + [c] + b| - 1] == a + [c] + b';
      assert (a + b)[..|a + b| - 1] == a + b';
      SkippedChunk(a, c, b', files, dir, name, guess);
    }
  }

  /**
   * Two images of one mime type share a path: after both, the file holds
   * the later image's bytes and the path is listed twice.
   */
  lemma SameTypeOverwrites(a: seq<Chunk>, c1: Chunk, c2: Chunk, files: map<string, Storage.Bytes>,
                           dir: string, name: string, guess: string -> Option<string>)
    requires ImageOf(c1).Some? && ImageOf(c2).Some?
    requires ImageOf(c1).value.mimeType == ImageOf(c2).value.mimeType
    ensures var p := ImagePath(dir, name, ImageOf(c2).value, guess);
      && SavedPaths(a + [c1, c2], dir, name, guess) == SavedPaths(a, dir, name, guess) + [p, p]
      && Written(files, a + [c1, c2], dir, name, guess)[p] == ImageOf(c2).value.data
  {
    var both, first := a + [c1, c2], a + [c1];
    var p := ImagePath(dir, name, ImageOf(c2).value, guess);
    assert ImagePath(dir, name, ImageOf(c1).value, guess) == p;
    assert both[..|both| - 1] == first && both[|both| - 1] == c2;
    assert first[..|first| - 1] == a && first[|first| - 1] == c1;
    assert SavedPaths(first, dir, name, guess) == SavedPaths(a, dir, name, guess) + [p];
    assert SavedPaths(both, dir, name, guess) == SavedPaths(first, dir, name, guess) + [p];
    assert Written(files, both, dir, name, guess) == Written(files, first, dir, name, guess)[p := ImageOf(c2).value.data];
  }

  /**
   * `save_binary_file(path, data)`: the file at `path` holds exactly `data`
   * afterwards, whatever it held before.
   */
  method SaveBinaryFile(store: Storage.FileStore, path: string, data: Storage.Bytes)
    modifies store
    ensures store.files == old(store.files)[path := data]
  {
    store.Write(path, data);
  }

  /**
   * The chunk fold of `generate_image`, for an output directory `dir`: the
   * saved paths in stream order, and the files as the successive writes
   * leave them.
   */
  method SaveStreamedImages(store: Storage.FileStore, chunks: seq<Chunk>, dir: string, name: string,
                            guess: string -> Option<string>)
    returns (saved: seq<string>)
    modifies store
    ensures saved == SavedPaths(chunks, dir, name, guess)
    ensures store.files == Written(old(store.files), chunks, dir, name, guess)
  {
    saved := [];
    for i := 0 to |chunks|
      invariant saved == SavedPaths(chunks[..i], dir, name, guess)
      invariant store.files == Written(old(store.files), chunks[..i], dir, name, guess)
    {
      assert chunks[..i + 1][..i] == chunks[..i];
      var chunk := chunks[i];
      if chunk.candidates == [] || chunk.candidates[0].content.None? || chunk.candidates[0].content.value == [] {
        continue;
      }
      var first := chunk.candidates[0].content.value[0];
      if first.inlineData.Some? {
        var image := first.inlineData.value;
        var extension := Extension(image.mimeType, guess);
        var path := PathJoin(dir, name + extension);
        SaveBinaryFile(store, path, image.data);
        saved := saved + [path];
      }
    }
    assert chunks[..|chunks|] == chunks;
  }

  /** `generate_image(prompt, image_name)` writing under the configured images directory. */
  method GenerateImage(store: Storage.FileStore, imagesDir: string, imageName: string,
                       stream: seq<Chunk>, guess: string -> Option<string>)
    returns (saved: seq<string>)
    modifies store
    ensures saved == SavedPaths(stream, imagesDir, imageName, guess)
    ensures store.files == Written(old(store.files), stream, imagesDir, imageName, guess)
  {
    saved := SaveStreamedImages(store, stream, imagesDir, imageName, guess);
  }
}

/**
 * The top-level image_generator.py: the same chunk fold, writing under the
 * fixed directory `output_images`.
 */
module RootImageGenerator {
  import opened Wrappers
  import opened PyText
  import Storage
  import ImageGenerator

  /** The directory the top-level generator writes into. */
  const OutputDir := "output_images"

  /** `generate_image(prompt, image_name)`: images are saved as `output_images/<name><ext>`. */
  method GenerateImage(store: Storage.FileStore, imageName: string,
                       stream: seq<ImageGenerator.Chunk>, guess: string -> Option<string>)
    returns (saved: seq<string>)
    modifies store
    ensures saved == ImageGenerator.SavedPaths(stream, OutputDir, imageName, guess)
    ensures store.files == ImageGenerator.Written(old(store.files), stream, OutputDir, imageName, guess)
  {
    saved := ImageGenerator.SaveStreamedImages(store, stream, OutputDir, imageName, guess);
  }

  /** Joining a relative name onto `output_images` puts it under that directory. */
  lemma JoinUnderOutputDir(name: string)
    requires name != [] && name[0] != '/'
    ensures PathJoin(OutputDir, name) == "output_images/" + name
  {
    assert !StartsWith(name, "/");
    assert OutputDir[|OutputDir| - 1] == 's';
  }

  /** Every saved path of a relative image name is `output_images/<name><ext>`. */
  lemma SavedUnderOutputDir(stream: seq<ImageGenerator.Chunk>, imageName: string, guess: string -> Option<string>,
                            k: nat)
    requires imageName != [] && imageName[0] != '/'
    requires k < |ImageGenerator.SavedPaths(stream, OutputDir, imageName, guess)|
    ensures exists ext :: (ext != "" && ImageGenerator.SavedPaths(stream, OutputDir, imageName, guess)[k]
                                        == "output_images/" + imageName + ext)
  {
    var s := ImageGenerator.SavedPaths(stream, OutputDir, imageName, guess);
    ImageGenerator.SavedPathsShape(stream, OutputDir, imageName, guess);
    var i :| 0 <= i < |stream| && ImageGenerator.ImageOf(stream[i]).Some?
      && s[k] == ImageGenerator.ImagePath(OutputDir, imageName, ImageGenerator.ImageOf(stream[i]).value, guess);
    var ext := ImageGenerator.Extension(ImageGenerator.ImageOf(stream[i]).value.mimeType, guess);
    JoinUnderOutputDir(imageName + ext);
    assert s[k] == "output_images/" + (imageName + ext);
    assert "output_images/" + (imageName + ext) == "output_images/" + imageName + ext;
    assert ext != "" && s[k] == "output_images/" + imageName + ext;
  }
}
