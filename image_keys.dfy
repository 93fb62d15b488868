/**
 * The storage keys under which uploaded images are stored, built the same way
 * by app/api/tournament/route.ts and by both actions of lib/action.ts.
 */
module ImageKeys {

  import opened Strings

  /** The folder under `dashboard/` an image goes to. */
  datatype Folder = Tournaments | Players | Teams {
    function Path(): string
    {
      match this
      case Tournaments => "tournaments"
      case Players => "players"
      case Teams => "teams"
    }
  }

  /** The parts of an uploaded `File` the handlers read. */
  datatype UploadFile = UploadFile(name: string, size: nat, contentType: string)

  /** `s.split(c).pop()`: the text after the last `c`, or all of `s` when there is none. */
  function AfterLast(s: string, c: char): (r: string)
    ensures |r| <= |s| && r == s[|s| - |r|..]
    ensures c !in r
    ensures |r| < |s| ==> s[|s| - |r| - 1] == c
  {
    if s == [] then []
    else if s[|s| - 1] == c then []
    else
      var r := AfterLast(s[..|s| - 1], c);
      assert s[|s| - 1 - |r|..] == s[..|s| - 1][|s| - 1 - |r|..] + [s[|s| - 1]];
      r + [s[|s| - 1]]
  }

  /** `name.split(".").pop() || "jpg"`. */
  function Extension(fileName: string): (ext: string)
    ensures ext != [] && '.' !in ext
  {
    var last := AfterLast(fileName, '.');
    if last == [] then "jpg" else last
  }

  /** Text with no `c` in it is all "after the last `c`". */
  lemma {:induction false} AfterLastWithout(s: string, c: char)
    requires c !in s
    ensures AfterLast(s, c) == s
  {
    if s != [] {
      assert s[|s| - 1] in s;
      AfterLastWithout(s[..|s| - 1], c);
      assert s[..|s| - 1] + [s[|s| - 1]] == s;
    }
  }

  /** What follows the last `c` of `front + [c] + back` is `back`, when `back` has no `c`. */
  lemma {:induction false} AfterLastSeparator(front: string, c: char, back: string)
    requires c !in back
    ensures AfterLast(front + [c] + back, c) == back
    decreases |back|
  {
    var s := front + [c] + back;
    if back == [] {
      assert s[|s| - 1] == c;
    } else {
      assert back[|back| - 1] in back;
      assert s[..|s| - 1] == front + [c] + back[..|back| - 1];
      AfterLastSeparator(front, c, back[..|back| - 1]);
      assert back[..|back| - 1] + [back[|back| - 1]] == back;
    }
  }

  /** The extension of `base.ext` is `ext`, whatever `base` holds. */
  lemma ExtensionAfterDot(base: string, ext: string)
    requires ext != [] && '.' !in ext
    ensures Extension(base + "." + ext) == ext
  {
    AfterLastSeparator(base, '.', ext);
  }

  /** A name without a '.' is its own extension. */
  lemma ExtensionWithoutDot(fileName: string)
    requires fileName != [] && '.' !in fileName
    ensures Extension(fileName) == fileName
  {
    AfterLastWithout(fileName, '.');
  }

  /** "jpg" is used only when nothing follows the last '.', that is for an empty name or one ending in '.'. */
  lemma ExtensionJpgFallback(fileName: string)
    ensures AfterLast(fileName, '.') == [] <==> fileName == [] || fileName[|fileName| - 1] == '.'
    ensures AfterLast(fileName, '.') == [] ==> Extension(fileName) == "jpg"
  {
  }

  /** `dashboard/{folder}/{name}-{timestamp}.{ext}`. */
  function ImageKey(folder: Folder, name: string, timestamp: nat, fileName: string): string
  {
    KeyStem(folder, name, timestamp) + "." + Extension(fileName)
  }

  /** The parts a key is built from; `Text()` is the key itself. */
  datatype StorageKey = StorageKey(folder: Folder, name: string, timestamp: nat, fileName: string) {
    function Text(): string
    {
      ImageKey(folder, name, timestamp, fileName)
    }
  }

  /** The text before the extension: `dashboard/{folder}/{name}-{timestamp}`. */
  function KeyStem(folder: Folder, name: string, timestamp: nat): (stem: string)
    ensures StartsWith(stem, "dashboard/" + folder.Path() + "/")
  {
    var dir := "dashboard/" + folder.Path() + "/";
    assert (dir + (name + "-" + NatToDecimal(timestamp)))[..|dir|] == dir;
    dir + (name + "-" + NatToDecimal(timestamp))
  }

  /** The key keeps the uploaded file's extension and lies in the folder's directory. */
  lemma ImageKeyShape(folder: Folder, name: string, timestamp: nat, fileName: string)
    ensures Extension(ImageKey(folder, name, timestamp, fileName)) == Extension(fileName)
    ensures StartsWith(ImageKey(folder, name, timestamp, fileName), "dashboard/" + folder.Path() + "/")
  {
    var stem := KeyStem(folder, name, timestamp);
    var ext := Extension(fileName);
    ExtensionAfterDot(stem, ext);
    var dir := "dashboard/" + folder.Path() + "/";
    assert (stem + "." + ext)[..|dir|] == stem[..|dir|];
  }


}
