/** File names as a client sends them, and what they say about a video. */
module Filenames {
  /** What text and type libraries give: lower case of a text, and the media type of an extension. */
  datatype Library = Library(lower: string -> string, mediaType: string -> string)

  predicate NoSlash(s: string) {
    forall i :: 0 <= i < |s| ==> s[i] != '/'
  }

  function StripSlashes(path: string): string {
    if path != "" && path[|path| - 1] == '/' then StripSlashes(path[..|path| - 1]) else path
  }

  function LastElement(path: string): string {
    if path == "" || path[|path| - 1] == '/' then "" else LastElement(path[..|path| - 1]) + [path[|path| - 1]]
  }

  /** The last element of a path; a lone dot for the empty path, a slash for slashes only. */
  function Base(path: string): string {
    var s := StripSlashes(path);
    if path == "" then "." else if s == "" then "/" else LastElement(s)
  }

  /** From the last dot of the last element on. */
  function Ext(path: string): string {
    if path == "" || path[|path| - 1] == '/' then ""
    else if path[|path| - 1] == '.' then "."
    else
      var rest := Ext(path[..|path| - 1]);
      if rest == "" then "" else rest + [path[|path| - 1]]
  }

  lemma {:induction false} LastElementIsAName(path: string)
    ensures NoSlash(LastElement(path))
    ensures path != "" && path[|path| - 1] != '/' ==> LastElement(path) != ""
  {
    if path != "" && path[|path| - 1] != '/' {
      LastElementIsAName(path[..|path| - 1]);
    }
  }

  lemma {:induction false} NoTrailingSlash(path: string)
    ensures var s := StripSlashes(path); s != "" ==> s[|s| - 1] != '/'
  {
    if path != "" && path[|path| - 1] == '/' {
      NoTrailingSlash(path[..|path| - 1]);
    }
  }

  /** Whatever a client sends, its base is a single name, or a lone slash or dot. */
  lemma BaseIsAName(path: string)
    ensures Base(path) != "" && (Base(path) == "/" || NoSlash(Base(path)))
  {
    NoTrailingSlash(path);
    LastElementIsAName(StripSlashes(path));
  }

  predicate OnlySlashes(s: string) {
    forall i :: 0 <= i < |s| ==> s[i] == '/'
  }

  lemma {:induction false} SlashesStripped(path: string) returns (t: string)
    ensures path == StripSlashes(path) + t && OnlySlashes(t)
  {
    if path != "" && path[|path| - 1] == '/' {
      t := SlashesStripped(path[..|path| - 1]);
      assert path == path[..|path| - 1] + ['/'];
      t := t + ['/'];
    } else {
      t := "";
    }
  }

  lemma {:induction false} LastElementEnds(path: string) returns (dir: string)
    ensures path == dir + LastElement(path) && (dir == "" || dir[|dir| - 1] == '/')
  {
    if path == "" || path[|path| - 1] == '/' {
      dir := path;
    } else {
      dir := LastElementEnds(path[..|path| - 1]);
      assert path == path[..|path| - 1] + [path[|path| - 1]];
    }
  }

  lemma {:induction false} SlashesOnly(path: string)
    ensures StripSlashes(path) == "" <==> OnlySlashes(path)
  {
    if path != "" && path[|path| - 1] == '/' {
      SlashesOnly(path[..|path| - 1]);
      assert path == path[..|path| - 1] + ['/'];
    }
  }

  /** The base is what stands between the last slash before it and the slashes at the end. */
  lemma BaseIs(path: string) returns (dir: string, slashes: string)
    ensures path == "" ==> Base(path) == "."
    ensures path != "" && OnlySlashes(path) ==> Base(path) == "/"
    ensures !OnlySlashes(path) ==>
      && path == dir + Base(path) + slashes && Base(path) != ""
      && (dir == "" || dir[|dir| - 1] == '/') && OnlySlashes(slashes)
      && forall i :: 0 <= i < |Base(path)| ==> Base(path)[i] != '/'
  {
    SlashesOnly(path);
    LastElementIsAName(StripSlashes(path));
    NoTrailingSlash(path);
    slashes := SlashesStripped(path);
    dir := LastElementEnds(StripSlashes(path));
  }

  /** Neither a slash nor a dot. */
  predicate IsPlain(s: string) {
    forall i :: 0 <= i < |s| ==> s[i] != '/' && s[i] != '.'
  }

  /** The extension starts at the last dot, if there is one behind the last slash. */
  lemma {:induction false} ExtIs(path: string) returns (stem: string, rest: string)
    ensures path == stem + Ext(path) + (if Ext(path) == "" then rest else "")
    ensures Ext(path) != "" ==> Ext(path)[0] == '.' && IsPlain(Ext(path)[1..])
    ensures Ext(path) == "" ==> IsPlain(rest) && (stem == "" || stem[|stem| - 1] == '/')
  {
    if path == "" || path[|path| - 1] == '/' {
      stem, rest := path, "";
    } else {
      var init, c := path[..|path| - 1], path[|path| - 1];
      assert path == init + [c];
      if c == '.' {
        stem, rest := init, "";
      } else {
        stem, rest := ExtIs(init);
        if Ext(init) == "" {
          rest := rest + [c];
        }
      }
    }
  }

  const VIDEO_EXTENSIONS: set<string> :=
    {"mp4", "mov", "avi", "mkv", "m4v", "mpeg", "mpg", "wmv", "asf", "flv", "webm", "ogg", "ogv"}

  predicate IsVideoFilename(lib: Library, filename: string) {
    var ext := Ext(filename);
    lib.lower(if ext != "" && ext[0] == '.' then ext[1..] else ext) in VIDEO_EXTENSIONS
  }

  predicate IsVideoContentType(lib: Library, contentType: string) {
    "video/" <= lib.lower(contentType)
  }

  function ContentTypeFromFilename(lib: Library, filename: string, fallback: string): string {
    if fallback != "" then fallback
    else if lib.mediaType(Ext(filename)) != "" then lib.mediaType(Ext(filename))
    else "video/mp4"
  }

  lemma {:induction false} ExtOf(stem: string, e: string)
    requires IsPlain(e)
    ensures Ext(stem + "." + e) == "." + e
  {
    if e == "" {
      assert stem + "." + e == stem + ".";
    } else {
      var init := e[..|e| - 1];
      assert stem + "." + e == (stem + "." + init) + [e[|e| - 1]];
      ExtOf(stem, init);
      assert (stem + "." + e)[..|stem + "." + e| - 1] == stem + "." + init;
    }
  }

  /** Whether a file is a video is decided by what follows the last dot of its name. */
  lemma VideoFilenameIs(lib: Library, stem: string, e: string)
    requires IsPlain(e)
    ensures IsVideoFilename(lib, stem + "." + e) <==> lib.lower(e) in VIDEO_EXTENSIONS
  {
    ExtOf(stem, e);
  }

  /** A content type is that of a video if it begins so; a stated one is kept, and one is always found. */
  lemma ContentTypesAre(lib: Library, filename: string, contentType: string)
    ensures IsVideoContentType(lib, contentType) <==>
      var t := lib.lower(contentType); |t| >= 6 && t[..5] == "video" && t[5] == '/'
    ensures var t := ContentTypeFromFilename(lib, filename, contentType);
      && t != "" && (contentType != "" ==> t == contentType)
      && (contentType == "" && t != "video/mp4" ==> t == lib.mediaType(Ext(filename)))
      && (contentType == "" && lib.mediaType(Ext(filename)) != "" ==> t == lib.mediaType(Ext(filename)))
  {
  }
}
