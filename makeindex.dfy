/** Indexing a folder on EOS: the folder is listed with `eos ls -F` (one
    name per line, folders marked by a trailing '/'), the names that end
    with the extension are turned into XRootD URLs, and the list is written
    as a one-key JSON dictionary. What the `eos` command prints is a
    parameter: running the command is outside the model, while the
    trailing newline `subprocess.getoutput` removes from it is modelled. */
module MakeIndex {
  import opened Seqs
  import opened Text

  const Host := "root://eoscms.cern.ch"

  /** Line 17: the listing command; the listed folder is its last argument. */
  function ListCommand(parent: string): (c: string)
    ensures StartsWith(c, "eos " + Host + " ")
    ensures EndsWith(c, " " + parent)
  {
    var head := "eos " + Host + " ls -F";
    assert (head + " " + parent)[..|"eos " + Host + " "|] == "eos " + Host + " ";
    assert (head + " " + parent)[|head|..] == " " + parent;
    head + " " + parent
  }

  /** Line 19: `subprocess.getoutput` hands back what the command printed
      less one trailing newline. */
  function GetOutput(printed: string): string
  {
    if printed != [] && printed[|printed| - 1] == '\n' then printed[..|printed| - 1] else printed
  }

  /** Exactly one final newline is removed, and text that does not end in a
      newline is kept as it is. */
  lemma GetOutputStripsNewline(s: string)
    ensures GetOutput(s + "\n") == s
    ensures (s == [] || s[|s| - 1] != '\n') ==> GetOutput(s) == s
  {
    assert (s + "\n")[..|s|] == s;
  }

  /** Lines 19-21: the entries of a listing, the command's output split at
      its newlines. */
  function Children(printed: string): seq<string>
  {
    Split(GetOutput(printed), '\n')
  }

  /** One entry per line of the output: one more entry than the newlines
      left after the final one is removed, no entry holding a newline, and
      the entries joined by newlines give that output back. */
  lemma ChildrenAreLines(printed: string)
    ensures var children := Children(printed);
      |children| == Count(GetOutput(printed), '\n') + 1
      && (forall x | x in children :: '\n' !in x)
      && Join(children, '\n') == GetOutput(printed)
  {
    JoinSplit(GetOutput(printed), '\n');
  }

  /** A listing printed line by line gives back exactly its lines: the
      final newline yields no empty last entry. An empty listing gives one
      empty entry. */
  lemma ChildrenOfLines(lines: seq<string>)
    requires forall l | l in lines :: '\n' !in l
    ensures Children(Unlines(lines)) == if lines == [] then [""] else lines
  {
    if lines != [] {
      UnlinesJoin(lines);
      GetOutputStripsNewline(Join(lines, '\n'));
      SplitJoin(lines, '\n');
    }
  }

  /** An entry `ls -F` marks as a folder. */
  predicate IsSubfolder(x: string)
  {
    |x| > 0 && x[|x| - 1] == '/'
  }

  function SubfolderMask(children: seq<string>): (mask: seq<bool>)
    ensures |mask| == |children|
  {
    seq(|children|, i requires 0 <= i < |children| => IsSubfolder(children[i]))
  }

  /** What `get_subfolders` returns for the entries of a listing. */
  function Subfolders(children: seq<string>): seq<string>
  {
    Select(children, SubfolderMask(children))
  }

  /** Lines 23-30: the entries are scanned in order; empty ones are skipped,
      those ending in '/' are kept. */
  method GetSubfolders(printed: string) returns (subfolders: seq<string>)
    ensures subfolders == Subfolders(Children(printed))
  {
    var children := Children(printed);
    subfolders := [];
    for i := 0 to |children|
      invariant subfolders == Subfolders(children[..i])
    {
      var x := children[i];
      assert children[..i + 1] == children[..i] + [x];
      assert SubfolderMask(children[..i + 1]) == SubfolderMask(children[..i]) + [IsSubfolder(x)];
      SelectAppend(children[..i], SubfolderMask(children[..i]), [x], [IsSubfolder(x)]);
      if |x| == 0 {
        continue;
      }
      if x[|x| - 1] == '/' {
        subfolders := subfolders + [x];
      }
    }
    assert children[..|children|] == children;
  }

  /** The subfolders are exactly the non-empty entries ending in '/'; in
      particular no empty entry is ever returned. */
  lemma SubfoldersExactly(children: seq<string>, x: string)
    ensures x in Subfolders(children) <==> x in children && IsSubfolder(x)
    ensures "" !in Subfolders(children)
  {
    var mask := SubfolderMask(children);
    SelectMember(children, mask, x);
    SelectMember(children, mask, "");
    if x in children && IsSubfolder(x) {
      var i :| 0 <= i < |children| && children[i] == x;
      assert mask[i];
    }
  }

  function ExtensionMask(children: seq<string>, ext: string): (mask: seq<bool>)
    ensures |mask| == |children|
  {
    seq(|children|, i requires 0 <= i < |children| => EndsWith(children[i], ext))
  }

  /** Line 33: the entries ending with the extension, in listing order. */
  function Indexed(children: seq<string>, ext: string): seq<string>
  {
    Select(children, ExtensionMask(children, ext))
  }

  lemma IndexedExactly(children: seq<string>, ext: string, x: string)
    ensures x in Indexed(children, ext) <==> x in children && EndsWith(x, ext)
  {
    var mask := ExtensionMask(children, ext);
    SelectMember(children, mask, x);
    if x in children && EndsWith(x, ext) {
      var i :| 0 <= i < |children| && children[i] == x;
      assert mask[i];
    }
  }

  /** Line 34: the URL of a file of the folder. */
  function FileUrl(directory: string, name: string): (url: string)
    ensures EndsWith(url, "/" + name)
  {
    var url := Host + "/" + directory + "/" + name;
    assert url[|url| - |"/" + name|..] == "/" + name;
    url
  }

  /** The name can be read back from its URL: its tail after the host, the
      folder and one '/'. */
  lemma FileUrlNames(directory: string, name: string)
    ensures var url, n := FileUrl(directory, name), |Host| + 1 + |directory| + 1;
      StartsWith(url, Host + "/" + directory + "/") && n <= |url| && url[n..] == name
  {
    var url := FileUrl(directory, name);
    assert url == (Host + "/" + directory + "/") + name;
  }

  /** Lines 32-34: the URLs of the indexed entries of the listing. */
  function IndexEntries(directory: string, children: seq<string>, ext: string): (urls: seq<string>)
    ensures |urls| == |Indexed(children, ext)|
  {
    var names := Indexed(children, ext);
    seq(|names|, i requires 0 <= i < |names| => FileUrl(directory, names[i]))
  }

  /** Each entry is the URL of the indexed name at the same place, and
      every one of them names a file with the extension. */
  lemma IndexEntriesAreUrls(directory: string, children: seq<string>, ext: string)
    ensures var names, urls := Indexed(children, ext), IndexEntries(directory, children, ext);
      (forall i | 0 <= i < |urls| ::
        urls[i] == FileUrl(directory, names[i]) && EndsWith(names[i], ext) && names[i] in children)
  {
    var names := Indexed(children, ext);
    forall i | 0 <= i < |names| ensures EndsWith(names[i], ext) && names[i] in children {
      IndexedExactly(children, ext, names[i]);
    }
  }

  /** Line 35: the index dictionary for a folder listing. */
  function Index(key: string, directory: string, printed: string, ext: string): map<string, seq<string>>
  {
    map[key := IndexEntries(directory, Children(printed), ext)]
  }

  /** The index has the given key and no other, and its value lists one URL
      per listed name with the extension, in listing order. */
  lemma IndexSingleKey(key: string, directory: string, printed: string, ext: string)
    ensures var index := Index(key, directory, printed, ext);
      index.Keys == {key}
      && |index[key]| == |Indexed(Children(printed), ext)|
      && forall i | 0 <= i < |index[key]| :: index[key][i] == FileUrl(directory, Indexed(Children(printed), ext)[i])
  {
  }

  /** Line 36: where the index of a key is written. */
  function IndexPath(key: string): string
  {
    "nanoindex/nanoindex_" + key + ".json"
  }

  /** Different keys are written to different files. */
  lemma IndexPathsDistinct(k1: string, k2: string)
    requires IndexPath(k1) == IndexPath(k2)
    ensures k1 == k2
  {
    var p1, p2 := IndexPath(k1), IndexPath(k2);
    assert |k1| == |k2|;
    var n := |"nanoindex/nanoindex_"|;
    assert p1[n..n + |k1|] == k1;
    assert p2[n..n + |k2|] == k2;
  }
}
