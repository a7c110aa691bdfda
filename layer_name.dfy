/** The layer name create_miffile derives from a file path
    (file_operator.py): the path up to its last `.`, with everything up to
    and including its last separator removed. The separator is a parameter
    (os.sep on the host). */
module LayerNames {

  /** str.rfind for one character: the last index holding c, or -1. */
  function RFind(s: string, c: char): (pos: int)
    ensures -1 <= pos < |s|
    ensures pos == -1 ==> forall j :: 0 <= j < |s| ==> s[j] != c
    ensures pos >= 0 ==> s[pos] == c && forall j :: pos < j < |s| ==> s[j] != c
    decreases |s|
  {
    if |s| == 0 then -1
    else if s[|s| - 1] == c then |s| - 1
    else RFind(s[..|s| - 1], c)
  }

  /** t occurs in s starting at index i. */
  predicate OccursAt(s: string, t: string, i: int)
  {
    0 <= i <= |s| - |t| && t == s[i..i + |t|]
  }

  /** The layer-name steps of create_miffile: an empty name unless the path
      has a `.`; then the text before the last `.`, and of that the text
      after its last separator. */
  function LayerName(filePath: string, sep: char): (name: string)
    ensures '.' !in filePath ==> name == []
    ensures sep !in name
    ensures '.' in filePath ==>
              var dot := RFind(filePath, '.');
              |name| <= dot && name == filePath[dot - |name|..dot] &&
              (|name| == dot || filePath[dot - |name| - 1] == sep)
  {
    // the Python code reuses one variable for the stem and the name
    var dot := RFind(filePath, '.');
    var stem := if dot != -1 then filePath[0..dot] else "";
    var pos := RFind(stem, sep);
    var name := if pos != -1 then stem[pos + 1..|stem|] else stem;
    LayerNameShape(filePath, sep, dot, stem, pos, name);
    name
  }

  lemma LayerNameShape(filePath: string, sep: char, dot: int, stem: string, pos: int, name: string)
    requires dot == RFind(filePath, '.')
    requires stem == if dot != -1 then filePath[0..dot] else ""
    requires pos == RFind(stem, sep)
    requires name == if pos != -1 then stem[pos + 1..|stem|] else stem
    ensures '.' !in filePath ==> name == []
    ensures sep !in name
    ensures '.' in filePath ==>
              |name| <= dot && name == filePath[dot - |name|..dot] &&
              (|name| == dot || filePath[dot - |name| - 1] == sep)
  {
    if '.' !in filePath {
      assert dot == -1;
    }
    forall k | 0 <= k < |name|
      ensures name[k] != sep
    {
      if pos != -1 {
        assert name[k] == stem[pos + 1 + k];
      } else {
        assert name[k] == stem[k];
      }
    }
    if dot != -1 && pos != -1 {
      assert filePath[dot - |name| - 1] == stem[pos];
    }
  }

  /** The layer name is a contiguous piece of the path, no longer than it. */
  lemma LayerNameIsSubstring(filePath: string, sep: char)
    ensures var name := LayerName(filePath, sep);
      |name| <= |filePath| &&
      exists i :: OccursAt(filePath, name, i)
  {
    var name := LayerName(filePath, sep);
    if '.' in filePath {
      var dot := RFind(filePath, '.');
      assert OccursAt(filePath, name, dot - |name|);
    } else {
      assert OccursAt(filePath, name, 0);
    }
  }

  /** The name is the longest separator-free tail of the path before its
      last dot: no shorter tail satisfies the characterisation. */
  lemma LayerNameUnique(filePath: string, sep: char, other: string)
    requires '.' in filePath
    requires var dot := RFind(filePath, '.');
      |other| <= dot && other == filePath[dot - |other|..dot] && sep !in other &&
      (|other| == dot || filePath[dot - |other| - 1] == sep)
    ensures other == LayerName(filePath, sep)
  {
    var name := LayerName(filePath, sep);
    var dot := RFind(filePath, '.');
    if |other| < |name| {
      assert false;
    } else if |name| < |other| {
      assert false;
    }
  }

  /** A dot inside a directory name is still taken as the extension dot. */
  lemma DotInDirectory()
    ensures LayerName("a.b/c", '/') == "a"
  {
    var path := "a.b/c";
    assert path[0] == 'a' && path[1] == '.' && path[2] == 'b' && path[3] == '/' && path[4] == 'c';
    assert RFind(path, '.') == 1;
    assert path[0..1] == "a";
    assert RFind("a", '/') == -1;
  }

  /** The usual case: directory and extension are both removed. */
  lemma DirectoryAndExtensionRemoved()
    ensures LayerName("data/roads.mif", '/') == "roads"
  {
    var path := "data/roads.mif";
    assert path[10] == '.' && path[11] == 'm' && path[12] == 'i' && path[13] == 'f';
    assert RFind(path, '.') == 10;
    var stem := path[0..10];
    assert stem == "data/roads";
    assert stem[4] == '/' && stem[5] == 'r' && stem[6] == 'o' && stem[7] == 'a' && stem[8] == 'd' && stem[9] == 's';
    assert RFind(stem, '/') == 4;
    assert stem[5..10] == "roads";
  }
}
