/**
  The multipart/form-data request body that `createDataBody` builds for the
  upload (AudioVideoManager.swift). Parts follow RFC 7578: each part opens
  with the dash-boundary line of section 5.1.1 of RFC 2046, carries a
  `Content-Disposition: form-data` header (RFC 7578, section 4.2) and, for a
  file, a `Content-Type` header; the body closes with the close delimiter.

  Text is turned into bytes by UTF-8, as `String.data(using: .utf8)` does.
  Reading a file is the map `files`: a URL that is not a key cannot be read.
 */
module Multipart {
  import opened Wrappers
  import opened Text
  import opened Paths

  /**
    One element of the `videos` array: a dictionary that may or may not hold a
    String under "name" and a URL under "url".
   */
  datatype VideoEntry = VideoEntry(name: Option<string>, url: Option<FileUrl>)

  /** The logical parts of a form body. */
  datatype Part =
    | FieldPart(name: string, value: string)
      /** `content` is None when the file could not be read. */
    | FilePart(name: string, filename: string, mimeType: string, content: Option<seq<byte>>)

  /** Every file part is declared with this media type, whatever the file holds. */
  const VideoMimeType: string := "video/mp4"

  // ---------------------------------------------------------------------------
  // Sequences built piece by piece

  /** The pieces `f` gives for each element of `xs`, one after the other. */
  function FlatMap<T, U>(f: T -> seq<U>, xs: seq<T>): seq<U>
  {
    if xs == [] then [] else FlatMap(f, xs[..|xs| - 1]) + f(xs[|xs| - 1])
  }

  /** Consecutive runs of elements give consecutive runs of pieces. */
  lemma {:induction false} FlatMapAppend<T, U>(f: T -> seq<U>, xs: seq<T>, ys: seq<T>)
    ensures FlatMap(f, xs + ys) == FlatMap(f, xs) + FlatMap(f, ys)
    decreases |ys|
  {
    if ys == [] {
      assert xs + ys == xs;
    } else {
      var ys' := ys[..|ys| - 1];
      assert (xs + ys)[..|xs + ys| - 1] == xs + ys';
      assert (xs + ys)[|xs + ys| - 1] == ys[|ys| - 1];
      FlatMapAppend(f, xs, ys');
    }
  }

  lemma FlatMapSingle<T, U>(f: T -> seq<U>, x: T)
    ensures FlatMap(f, [x]) == f(x)
  {
    assert [x][..0] == [];
  }

  /** Growing the input by one element grows the output by that element's pieces. */
  lemma FlatMapSnoc<T, U>(f: T -> seq<U>, xs: seq<T>, n: nat)
    requires n < |xs|
    ensures FlatMap(f, xs[..n + 1]) == FlatMap(f, xs[..n]) + f(xs[n])
  {
    assert xs[..n + 1][..n] == xs[..n];
  }

  // ---------------------------------------------------------------------------
  // Bytes of the parts

  function Delimiter(boundary: string): seq<byte>
  {
    Utf8("--" + boundary + "\r\n")
  }

  function CloseDelimiter(boundary: string): seq<byte>
  {
    Utf8("--" + boundary + "--\r\n")
  }

  /** The text of the `Content-Disposition` header up to the part's name. */
  const DispositionPrefix: string := "Content-Disposition: form-data; name=\""

  function FieldHeader(name: string): seq<byte>
  {
    Utf8(DispositionPrefix + name + "\"\r\n\r\n")
  }

  function FileDisposition(name: string, filename: string): seq<byte>
  {
    Utf8(DispositionPrefix + name + ("\"; filename=\"" + filename + "\"\r\n"))
  }

  function ContentTypeHeader(mimeType: string): seq<byte>
  {
    Utf8("Content-Type: " + mimeType + "\r\n\r\n")
  }

  /** Everything a file part holds before its content. */
  function FileHeaders(boundary: string, name: string, filename: string, mimeType: string): seq<byte>
  {
    Delimiter(boundary) + FileDisposition(name, filename) + ContentTypeHeader(mimeType)
  }

  /** The bytes of one part. A file that could not be read leaves only its headers. */
  function PartBytes(boundary: string, p: Part): seq<byte>
  {
    match p
    case FieldPart(name, value) =>
      Delimiter(boundary) + FieldHeader(name) + Utf8(value + "\r\n")
    case FilePart(name, filename, mimeType, content) =>
      FileHeaders(boundary, name, filename, mimeType)
      + (if content.Some? then content.value + Utf8("\r\n") else [])
  }

  function PartEncoder(boundary: string): Part -> seq<byte>
  {
    p => PartBytes(boundary, p)
  }

  /** The bytes of a sequence of parts, one after the other. */
  function PartsBytes(boundary: string, ps: seq<Part>): seq<byte>
  {
    FlatMap(PartEncoder(boundary), ps)
  }

  /** A complete body: the parts, then the close delimiter. */
  function Encode(boundary: string, ps: seq<Part>): seq<byte>
  {
    PartsBytes(boundary, ps) + CloseDelimiter(boundary)
  }

  // ---------------------------------------------------------------------------
  // Parts of the form

  /** One parameter of the dictionary as a field part. */
  function ParamParts(kv: (string, string)): seq<Part>
  {
    [FieldPart(kv.0, kv.1)]
  }

  /** The parameter dictionary, in its iteration order, as field parts. */
  function FieldParts(params: seq<(string, string)>): seq<Part>
  {
    FlatMap(ParamParts, params)
  }

  /** What reading the file at `url` yields. */
  function ReadFile(files: map<FileUrl, seq<byte>>, url: FileUrl): Option<seq<byte>>
  {
    if url in files then Some(files[url]) else None
  }

  /** The file part of one video entry, or nothing when it lacks a name or a URL. */
  function EntryParts(v: VideoEntry, files: map<FileUrl, seq<byte>>): seq<Part>
  {
    if v.name.Some? && v.url.Some? then
      [FilePart(v.name.value, LastPathComponent(v.url.value), VideoMimeType, ReadFile(files, v.url.value))]
    else []
  }

  function EntryEncoder(files: map<FileUrl, seq<byte>>): VideoEntry -> seq<Part>
  {
    v => EntryParts(v, files)
  }

  /** The video entries as file parts. */
  function FileParts(videos: seq<VideoEntry>, files: map<FileUrl, seq<byte>>): seq<Part>
  {
    FlatMap(EntryEncoder(files), videos)
  }

  /** The parts `createDataBody` writes: every parameter, then every complete video entry. */
  function FormParts(params: seq<(string, string)>, videos: seq<VideoEntry>,
                     files: map<FileUrl, seq<byte>>): seq<Part>
  {
    FieldParts(params) + FileParts(videos, files)
  }

  // ---------------------------------------------------------------------------
  // The builder

  /** One more parameter appends its delimiter, its header and its value line. */
  lemma FieldStep(boundary: string, params: seq<(string, string)>, i: nat)
    requires i < |params|
    ensures PartsBytes(boundary, FieldParts(params[..i + 1]))
         == PartsBytes(boundary, FieldParts(params[..i])) + Delimiter(boundary)
            + FieldHeader(params[i].0) + Utf8(params[i].1 + "\r\n")
  {
    var p := FieldPart(params[i].0, params[i].1);
    FlatMapSnoc(ParamParts, params, i);
    FlatMapAppend(PartEncoder(boundary), FieldParts(params[..i]), [p]);
    FlatMapSingle(PartEncoder(boundary), p);
  }

  /** One more complete video entry appends its headers, then its content and a line break if read. */
  lemma EntryStep(boundary: string, fields: seq<Part>, videos: seq<VideoEntry>, j: nat,
                  files: map<FileUrl, seq<byte>>)
    requires j < |videos| && videos[j].name.Some? && videos[j].url.Some?
    ensures var url := videos[j].url.value;
      var headers := PartsBytes(boundary, fields + FileParts(videos[..j], files))
         + Delimiter(boundary) + FileDisposition(videos[j].name.value, LastPathComponent(url))
         + ContentTypeHeader(VideoMimeType);
      PartsBytes(boundary, fields + FileParts(videos[..j + 1], files))
      == if url in files then headers + files[url] + Utf8("\r\n") else headers
  {
    var v := videos[j];
    var p := FilePart(v.name.value, LastPathComponent(v.url.value), VideoMimeType, ReadFile(files, v.url.value));
    var before := PartsBytes(boundary, fields + FileParts(videos[..j], files));
    assert PartsBytes(boundary, fields + FileParts(videos[..j + 1], files)) == before + PartBytes(boundary, p) by {
      FlatMapSnoc(EntryEncoder(files), videos, j);
      assert EntryEncoder(files)(v) == [p];
      assert fields + FileParts(videos[..j + 1], files) == (fields + FileParts(videos[..j], files)) + [p];
      FlatMapAppend(PartEncoder(boundary), fields + FileParts(videos[..j], files), [p]);
      FlatMapSingle(PartEncoder(boundary), p);
    }
    AppendFilePart(before, boundary, p);
  }

  /** Appending a file part's bytes, piece by piece. */
  lemma AppendFilePart(before: seq<byte>, boundary: string, p: Part)
    requires p.FilePart?
    ensures var headers := before + Delimiter(boundary) + FileDisposition(p.name, p.filename)
                           + ContentTypeHeader(p.mimeType);
      before + PartBytes(boundary, p)
      == if p.content.Some? then headers + p.content.value + Utf8("\r\n") else headers
  {
    var d, f, c := Delimiter(boundary), FileDisposition(p.name, p.filename), ContentTypeHeader(p.mimeType);
    if p.content.Some? {
      Assoc5(before, d, f, c, p.content.value, Utf8("\r\n"));
    } else {
      assert PartBytes(boundary, p) == d + f + c + [];
    }
  }

  lemma Assoc5(a: seq<byte>, d: seq<byte>, f: seq<byte>, c: seq<byte>, x: seq<byte>, e: seq<byte>)
    ensures a + (d + f + c + (x + e)) == a + d + f + c + x + e
  {
  }

  /** An entry without a name or a URL adds nothing. */
  lemma SkippedEntryStep(videos: seq<VideoEntry>, j: nat, files: map<FileUrl, seq<byte>>)
    requires j < |videos| && !(videos[j].name.Some? && videos[j].url.Some?)
    ensures FileParts(videos[..j + 1], files) == FileParts(videos[..j], files)
  {
    FlatMapSnoc(EntryEncoder(files), videos, j);
    assert EntryEncoder(files)(videos[j]) == [];
  }

  /**
    `createDataBody`: appends each parameter's part, then each complete video
    entry's part, then the close delimiter, to a buffer that starts empty.
   */
  method CreateDataBody(params: seq<(string, string)>, videos: seq<VideoEntry>, boundary: string,
                        files: map<FileUrl, seq<byte>>)
    returns (body: seq<byte>)
    ensures body == Encode(boundary, FormParts(params, videos, files))
  {
    body := [];
    for i := 0 to |params|
      invariant body == PartsBytes(boundary, FieldParts(params[..i]))
    {
      var (key, value) := params[i];
      FieldStep(boundary, params, i);
      body := body + Delimiter(boundary);
      body := body + FieldHeader(key);
      body := body + Utf8(value + "\r\n");
    }
    assert params[..|params|] == params;
    ghost var fields := FieldParts(params);
    assert fields + FileParts(videos[..0], files) == fields;
    for j := 0 to |videos|
      invariant body == PartsBytes(boundary, fields + FileParts(videos[..j], files))
    {
      var video := videos[j];
      if video.name.Some? && video.url.Some? {
        var name, url := video.name.value, video.url.value;
        EntryStep(boundary, fields, videos, j, files);
        var fileName := LastPathComponent(url);
        var mimeType := VideoMimeType;
        body := body + Delimiter(boundary);
        body := body + FileDisposition(name, fileName);
        body := body + ContentTypeHeader(mimeType);
        if url in files {
          var videoData := files[url];
          body := body + videoData;
          body := body + Utf8("\r\n");
        }
      } else {
        SkippedEntryStep(videos, j, files);
      }
    }
    assert videos[..|videos|] == videos;
    body := body + CloseDelimiter(boundary);
  }

  // ---------------------------------------------------------------------------
  // Properties of the body

  /** The bytes of consecutive runs of parts are consecutive runs of bytes. */
  lemma PartsBytesAppend(boundary: string, xs: seq<Part>, ys: seq<Part>)
    ensures PartsBytes(boundary, xs + ys) == PartsBytes(boundary, xs) + PartsBytes(boundary, ys)
  {
    FlatMapAppend(PartEncoder(boundary), xs, ys);
  }

  /** The bytes of a single part. */
  lemma PartsBytesSingle(boundary: string, p: Part)
    ensures PartsBytes(boundary, [p]) == PartBytes(boundary, p)
  {
    FlatMapSingle(PartEncoder(boundary), p);
  }

  /** With no parameters and no videos the body is the close delimiter alone. */
  lemma EmptyFormIsCloseDelimiter(boundary: string, files: map<FileUrl, seq<byte>>)
    ensures Encode(boundary, FormParts([], [], files)) == Utf8("--" + boundary + "--\r\n")
  {
  }

  /**
    When every entry has a name and a URL there is exactly one file part per
    entry, in order, named after the entry, carrying the URL's last path
    component and what reading the URL gave.
   */
  lemma {:induction false} CompleteEntriesAreFileParts(videos: seq<VideoEntry>,
                                                       files: map<FileUrl, seq<byte>>)
    requires forall k :: 0 <= k < |videos| ==> videos[k].name.Some? && videos[k].url.Some?
    ensures |FileParts(videos, files)| == |videos|
    ensures forall k :: 0 <= k < |videos| ==>
      FileParts(videos, files)[k]
        == FilePart(videos[k].name.value, LastPathComponent(videos[k].url.value), VideoMimeType,
                    ReadFile(files, videos[k].url.value))
  {
    if videos != [] {
      var n := |videos| - 1;
      CompleteEntriesAreFileParts(videos[..n], files);
      FlatMapSnoc(EntryEncoder(files), videos, n);
      assert videos[..n + 1] == videos;
      assert EntryEncoder(files)(videos[n]) == EntryParts(videos[n], files);
    }
  }

  /**
    The body of the upload request (no parameters, the entries `first_video`
    and `second_video`) is the first video's part, the second video's part,
    and the close delimiter.
   */
  lemma UploadBodyShape(boundary: string, first: FileUrl, second: FileUrl,
                        files: map<FileUrl, seq<byte>>)
    ensures Encode(boundary, FormParts([], [VideoEntry(Some("first_video"), Some(first)),
                                            VideoEntry(Some("second_video"), Some(second))], files))
         == PartBytes(boundary, FilePart("first_video", LastPathComponent(first), VideoMimeType,
                                         ReadFile(files, first)))
          + PartBytes(boundary, FilePart("second_video", LastPathComponent(second), VideoMimeType,
                                         ReadFile(files, second)))
          + CloseDelimiter(boundary)
  {
    var videos := [VideoEntry(Some("first_video"), Some(first)),
                   VideoEntry(Some("second_video"), Some(second))];
    var p1 := FilePart("first_video", LastPathComponent(first), VideoMimeType, ReadFile(files, first));
    var p2 := FilePart("second_video", LastPathComponent(second), VideoMimeType, ReadFile(files, second));
    CompleteEntriesAreFileParts(videos, files);
    assert FileParts(videos, files) == [p1, p2];
    assert FormParts([], videos, files) == [p1] + [p2];
    PartsBytesAppend(boundary, [p1], [p2]);
    PartsBytesSingle(boundary, p1);
    PartsBytesSingle(boundary, p2);
  }

  /**
    A video whose file cannot be read still gets its delimiter and headers,
    then neither content nor line break; the parts before and after it and
    the close delimiter are as they would be anyway.
   */
  lemma ReadFailureIsLocal(boundary: string, params: seq<(string, string)>,
                           before: seq<VideoEntry>, v: VideoEntry, after: seq<VideoEntry>,
                           files: map<FileUrl, seq<byte>>)
    requires v.name.Some? && v.url.Some? && v.url.value !in files
    ensures Encode(boundary, FormParts(params, before + [v] + after, files))
         == PartsBytes(boundary, FormParts(params, before, files))
          + FileHeaders(boundary, v.name.value, LastPathComponent(v.url.value), VideoMimeType)
          + PartsBytes(boundary, FileParts(after, files))
          + CloseDelimiter(boundary)
  {
    var p := FilePart(v.name.value, LastPathComponent(v.url.value), VideoMimeType, None);
    UnreadEntryIsHeadersOnly(params, before, v, after, files);
    PartsBytesAround(boundary, FormParts(params, before, files), p, FileParts(after, files));
    assert PartBytes(boundary, p) == FileHeaders(boundary, p.name, p.filename, p.mimeType);
  }

  /** An entry whose file cannot be read becomes a file part without content, in its place. */
  lemma UnreadEntryIsHeadersOnly(params: seq<(string, string)>,
                                 before: seq<VideoEntry>, v: VideoEntry, after: seq<VideoEntry>,
                                 files: map<FileUrl, seq<byte>>)
    requires v.name.Some? && v.url.Some? && v.url.value !in files
    ensures FormParts(params, before + [v] + after, files)
         == FormParts(params, before, files)
          + [FilePart(v.name.value, LastPathComponent(v.url.value), VideoMimeType, None)]
          + FileParts(after, files)
  {
    var fields, e := FieldParts(params), EntryParts(v, files);
    FilePartsAround(before, v, after, files);
    assert e == [FilePart(v.name.value, LastPathComponent(v.url.value), VideoMimeType, None)];
    ConcatAssoc(fields, FileParts(before, files), e, FileParts(after, files));
  }

  lemma ConcatAssoc<T>(a: seq<T>, b: seq<T>, c: seq<T>, d: seq<T>)
    ensures a + (b + c + d) == a + b + c + d
  {
  }

  /** The file parts of entries around `v` are those of the entries before, of `v`, and of those after. */
  lemma FilePartsAround(before: seq<VideoEntry>, v: VideoEntry, after: seq<VideoEntry>,
                        files: map<FileUrl, seq<byte>>)
    ensures FileParts(before + [v] + after, files)
         == FileParts(before, files) + EntryParts(v, files) + FileParts(after, files)
  {
    FlatMapAppend(EntryEncoder(files), before + [v], after);
    FlatMapAppend(EntryEncoder(files), before, [v]);
    FlatMapSingle(EntryEncoder(files), v);
  }

  /** The bytes of parts around `p` are those of the parts before, of `p`, and of those after. */
  lemma PartsBytesAround(boundary: string, xs: seq<Part>, p: Part, ys: seq<Part>)
    ensures PartsBytes(boundary, xs + [p] + ys)
         == PartsBytes(boundary, xs) + PartBytes(boundary, p) + PartsBytes(boundary, ys)
  {
    PartsBytesAppend(boundary, xs + [p], ys);
    PartsBytesAppend(boundary, xs, [p]);
    PartsBytesSingle(boundary, p);
  }

  /** Where part `k` starts in the body. */
  function PartOffset(boundary: string, ps: seq<Part>, k: nat): nat
    requires k <= |ps|
  {
    |PartsBytes(boundary, ps[..k])|
  }

  /**
    Every part lies in the body at its offset, byte for byte; a file part that
    was read carries the file's bytes unchanged right after its headers.
   */
  lemma PartAtOffset(boundary: string, ps: seq<Part>, k: nat)
    requires k < |ps|
    ensures PartOffset(boundary, ps, k) + |PartBytes(boundary, ps[k])| <= |Encode(boundary, ps)|
    ensures Encode(boundary, ps)[PartOffset(boundary, ps, k)..
                                 PartOffset(boundary, ps, k) + |PartBytes(boundary, ps[k])|]
         == PartBytes(boundary, ps[k])
  {
    var pre, mid, post := ps[..k], ps[k], ps[k + 1..];
    var a := PartsBytes(boundary, pre);
    var m := PartBytes(boundary, mid);
    var rest := PartsBytes(boundary, post) + CloseDelimiter(boundary);
    assert Encode(boundary, ps) == a + m + rest by {
      assert ps == pre + [mid] + post;
      PartsBytesAppend(boundary, pre + [mid], post);
      PartsBytesAppend(boundary, pre, [mid]);
      PartsBytesSingle(boundary, mid);
    }
    SliceOfConcat(a, m, rest);
  }

  /** A file part that was read carries the file's bytes unchanged right after its headers. */
  lemma FileContentAtOffset(boundary: string, ps: seq<Part>, k: nat)
    requires k < |ps| && ps[k].FilePart? && ps[k].content.Some?
    ensures var start := PartOffset(boundary, ps, k)
                         + |FileHeaders(boundary, ps[k].name, ps[k].filename, ps[k].mimeType)|;
      start + |ps[k].content.value| <= |Encode(boundary, ps)|
      && Encode(boundary, ps)[start..start + |ps[k].content.value|] == ps[k].content.value
  {
    PartAtOffset(boundary, ps, k);
    var mid := ps[k];
    var h := FileHeaders(boundary, mid.name, mid.filename, mid.mimeType);
    var c := mid.content.value;
    assert PartBytes(boundary, mid) == h + c + Utf8("\r\n");
    SliceWithin(Encode(boundary, ps), PartOffset(boundary, ps, k), h, c, Utf8("\r\n"));
  }

  /**
    A field's value lies in the body right after its part's headers, and its
    bytes decode back to the value.
   */
  lemma FieldValueAtOffset(boundary: string, ps: seq<Part>, k: nat)
    requires k < |ps| && ps[k].FieldPart?
    ensures var start := PartOffset(boundary, ps, k) + |Delimiter(boundary) + FieldHeader(ps[k].name)|;
      start + |Utf8(ps[k].value)| <= |Encode(boundary, ps)|
      && DecodeUtf8(Encode(boundary, ps)[start..start + |Utf8(ps[k].value)|]) == Some(ps[k].value)
  {
    var start := PartOffset(boundary, ps, k) + |Delimiter(boundary) + FieldHeader(ps[k].name)|;
    FieldValueBytesAtOffset(boundary, ps, k);
    Utf8RoundTripAt(Encode(boundary, ps), start, start + |Utf8(ps[k].value)|, ps[k].value);
  }

  lemma FieldValueBytesAtOffset(boundary: string, ps: seq<Part>, k: nat)
    requires k < |ps| && ps[k].FieldPart?
    ensures var start := PartOffset(boundary, ps, k) + |Delimiter(boundary) + FieldHeader(ps[k].name)|;
      start + |Utf8(ps[k].value)| <= |Encode(boundary, ps)|
      && Encode(boundary, ps)[start..start + |Utf8(ps[k].value)|] == Utf8(ps[k].value)
  {
    var h, e := Delimiter(boundary) + FieldHeader(ps[k].name), Utf8("\r\n");
    PartAtOffset(boundary, ps, k);
    FieldPartBytes(boundary, ps[k].name, ps[k].value);
    SliceWithin(Encode(boundary, ps), PartOffset(boundary, ps, k), h, Utf8(ps[k].value), e);
  }

  lemma FieldPartBytes(boundary: string, name: string, value: string)
    ensures PartBytes(boundary, FieldPart(name, value))
         == (Delimiter(boundary) + FieldHeader(name)) + Utf8(value) + Utf8("\r\n")
  {
    Utf8Append(value, "\r\n");
  }

  /**
    Every part's name, field or file, lies in the body right after the
    delimiter and the start of its disposition header, and its bytes decode
    back to the name.
   */
  lemma NameAtOffset(boundary: string, ps: seq<Part>, k: nat)
    requires k < |ps|
    ensures var start := PartOffset(boundary, ps, k) + |Delimiter(boundary)| + |DispositionPrefix|;
      start + |Utf8(ps[k].name)| <= |Encode(boundary, ps)|
      && DecodeUtf8(Encode(boundary, ps)[start..start + |Utf8(ps[k].name)|]) == Some(ps[k].name)
  {
    var start := PartOffset(boundary, ps, k) + |Delimiter(boundary)| + |DispositionPrefix|;
    NameBytesAtOffset(boundary, ps, k);
    Utf8RoundTripAt(Encode(boundary, ps), start, start + |Utf8(ps[k].name)|, ps[k].name);
  }

  lemma NameBytesAtOffset(boundary: string, ps: seq<Part>, k: nat)
    requires k < |ps|
    ensures var start := PartOffset(boundary, ps, k) + |Delimiter(boundary)| + |DispositionPrefix|;
      start + |Utf8(ps[k].name)| <= |Encode(boundary, ps)|
      && Encode(boundary, ps)[start..start + |Utf8(ps[k].name)|] == Utf8(ps[k].name)
  {
    PartAtOffset(boundary, ps, k);
    var pre, tail := PartNameBytes(boundary, ps[k]);
    var h := Delimiter(boundary) + pre;
    SliceWithin(Encode(boundary, ps), PartOffset(boundary, ps, k), h, Utf8(ps[k].name), tail);
  }

  /** A part's bytes split around its name: `pre` is the encoded `DispositionPrefix`. */
  lemma PartNameBytes(boundary: string, p: Part) returns (pre: seq<byte>, tail: seq<byte>)
    ensures |pre| == |DispositionPrefix|
    ensures PartBytes(boundary, p) == (Delimiter(boundary) + pre) + Utf8(p.name) + tail
  {
    if p.FieldPart? {
      pre, tail := FieldNameBytes(boundary, p.name, p.value);
    } else {
      pre, tail := FileNameBytes(boundary, p.name, p.filename, p.mimeType, p.content);
    }
  }

  lemma DispositionPrefixLength()
    ensures |Utf8(DispositionPrefix)| == 38
  {
    Utf8Ascii(DispositionPrefix);
  }

  lemma FieldNameBytes(boundary: string, name: string, value: string) returns (pre: seq<byte>, tail: seq<byte>)
    ensures |pre| == |DispositionPrefix|
    ensures PartBytes(boundary, FieldPart(name, value)) == (Delimiter(boundary) + pre) + Utf8(name) + tail
  {
    var after, v := "\"\r\n\r\n", Utf8(value + "\r\n");
    pre := HeaderSplit(name, after);
    Regroup(Delimiter(boundary), FieldHeader(name), v, pre, Utf8(name), Utf8(after));
    tail := Utf8(after) + v;
  }

  lemma FileNameBytes(boundary: string, name: string, filename: string, mimeType: string,
                      content: Option<seq<byte>>) returns (pre: seq<byte>, tail: seq<byte>)
    ensures |pre| == |DispositionPrefix|
    ensures PartBytes(boundary, FilePart(name, filename, mimeType, content))
         == (Delimiter(boundary) + pre) + Utf8(name) + tail
  {
    var after := "\"; filename=\"" + filename + "\"\r\n";
    var c := ContentTypeHeader(mimeType);
    var x := if content.Some? then content.value + Utf8("\r\n") else [];
    Regroup3(Delimiter(boundary), FileDisposition(name, filename), c, x);
    pre := HeaderSplit(name, after);
    Regroup(Delimiter(boundary), FileDisposition(name, filename), c + x, pre, Utf8(name), Utf8(after));
    tail := Utf8(after) + (c + x);
  }

  lemma Regroup3(d: seq<byte>, f: seq<byte>, c: seq<byte>, x: seq<byte>)
    ensures d + f + c + x == d + f + (c + x)
  {
  }

  lemma Regroup(d: seq<byte>, f: seq<byte>, v: seq<byte>, pre: seq<byte>, n: seq<byte>, a: seq<byte>)
    requires f == pre + n + a
    ensures d + f + v == (d + pre) + n + (a + v)
  {
  }

  /** A disposition header splits around the part's name; `pre` is the encoded `DispositionPrefix`. */
  lemma HeaderSplit(name: string, after: string) returns (pre: seq<byte>)
    ensures |pre| == |DispositionPrefix|
    ensures Utf8(DispositionPrefix + name + after) == pre + Utf8(name) + Utf8(after)
  {
    pre := Utf8(DispositionPrefix);
    DispositionPrefixLength();
    Utf8Append(DispositionPrefix + name, after);
    Utf8Append(DispositionPrefix, name);
  }

  lemma SliceOfConcat(a: seq<byte>, m: seq<byte>, rest: seq<byte>)
    ensures (a + m + rest)[|a|..|a| + |m|] == m
  {
  }

  lemma SliceWithin(body: seq<byte>, off: nat, h: seq<byte>, c: seq<byte>, e: seq<byte>)
    requires off + |h + c + e| <= |body| && body[off..off + |h + c + e|] == h + c + e
    ensures off + |h| + |c| <= |body| && body[off + |h|..off + |h| + |c|] == c
  {
    var w := body[off..off + |h + c + e|];
    forall i | 0 <= i < |c|
      ensures body[off + |h| + i] == c[i]
    {
      assert body[off + |h| + i] == w[|h| + i];
    }
  }
}
