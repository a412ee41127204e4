/**
 * The file filter of the indexer: a file is taken when its name, lower-cased, ends with
 * `.json`. Paths use `/` as the separator and carry no trailing separator.
 */
module JsonFileFilter {
  import opened Text

  const Separator: char := '/'
  const Extension: string := ".json"

  /** `File.getName()`: the path's last component, everything after the last separator. */
  function GetName(path: string): (name: string)
    ensures |name| <= |path| && path[|path| - |name|..] == name
    ensures Separator !in name
    ensures |name| < |path| ==> path[|path| - |name| - 1] == Separator
    decreases |path|
  {
    if path == [] || path[|path| - 1] == Separator then []
    else GetName(path[..|path| - 1]) + [path[|path| - 1]]
  }

  /** `accept(pathname)` */
  predicate Accept(path: string) {
    EndsWith(Lower(GetName(path)), Extension)
  }

  /** The name is the longest separator-free suffix, so the parent path never matters. */
  lemma {:induction false} NameOfChild(dir: string, name: string)
    requires Separator !in name
    ensures GetName(dir + [Separator] + name) == name
    decreases |name|
  {
    var path := dir + [Separator] + name;
    if name == [] {
      assert path[|path| - 1] == Separator;
    } else {
      assert path[..|path| - 1] == dir + [Separator] + name[..|name| - 1];
      NameOfChild(dir, name[..|name| - 1]);
    }
  }

  /** A name without separators is its own last component. */
  lemma {:induction false} NameOfName(name: string)
    requires Separator !in name
    ensures GetName(name) == name
    decreases |name|
  {
    if name != [] {
      assert name[..|name| - 1] + [name[|name| - 1]] == name;
      NameOfName(name[..|name| - 1]);
    }
  }

  /** Only the last component is inspected: a file is accepted wherever it lives. */
  lemma ParentIgnored(dir: string, name: string)
    requires Separator !in name
    ensures Accept(dir + [Separator] + name) <==> Accept(name)
  {
    NameOfChild(dir, name);
    NameOfName(name);
  }

  /** A name ends with `.json` up to letter case exactly when it is a stem plus such an extension. */
  lemma JsonSuffix(name: string)
    ensures EndsWith(Lower(name), Extension) <==> exists stem, ext :: name == stem + ext && Lower(ext) == Extension
  {
    if EndsWith(Lower(name), Extension) {
      var k := |name| - |Extension|;
      var stem, ext := name[..k], name[k..];
      assert name == stem + ext;
      LowerAppend(stem, ext);
      assert Lower(name)[k..] == Lower(ext);
    }
    forall stem, ext | name == stem + ext && Lower(ext) == Extension ensures EndsWith(Lower(name), Extension) {
      LowerAppend(stem, ext);
      assert Lower(name)[|Lower(name)| - |Extension|..] == Lower(ext);
    }
  }

  /**
   * A file is accepted exactly when its name is some stem followed by `.json` in any mix of
   * letter case.
   */
  lemma AcceptIsJsonSuffix(path: string)
    ensures Accept(path) <==> exists stem, ext :: GetName(path) == stem + ext && Lower(ext) == Extension
  {
    JsonSuffix(GetName(path));
  }

  /** Names shorter than five characters are rejected. */
  lemma ShortNamesRejected(path: string)
    requires |GetName(path)| < |Extension|
    ensures !Accept(path)
  {
  }

  /** `.json` and `.JSON` both lower-case to the extension. */
  lemma ExtensionEitherCase()
    ensures Lower(".json") == Extension && Lower(".JSON") == Extension
  {
    var up := Lower(".JSON");
    assert up[1] == 'j' && up[2] == 's' && up[3] == 'o' && up[4] == 'n';
  }

  /** Any separator-free stem followed by `.json` in any letter case is accepted. */
  lemma AcceptsStemWithExtension(stem: string, ext: string)
    requires Separator !in stem && Lower(ext) == Extension
    ensures Accept(stem + ext)
  {
    var name := stem + ext;
    forall i | 0 <= i < |name| ensures name[i] != Separator {
      if i >= |stem| {
        assert Lower(ext)[i - |stem|] == LowerChar(name[i]);
      }
    }
    NameOfName(name);
    JsonSuffix(name);
  }

  /** The bare name `.json` is accepted. */
  lemma AcceptsBareExtension()
    ensures Accept(".json")
  {
    NameOfName(".json");
    assert Lower(".json") == ".json";
  }

  /** The extension must come last: `x.json.bak` is rejected. */
  lemma RejectsLaterExtension()
    ensures !Accept("x.json.bak")
  {
    NameOfName("x.json.bak");
    assert Lower("x.json.bak")[9] == 'k';
  }

  /** A directory named like a JSON file does not make its files acceptable. */
  lemma RejectsJsonParent()
    ensures !Accept("notes.json/readme.txt")
  {
    NameOfChild("notes.json", "readme.txt");
    assert Lower("readme.txt")[9] == 't';
  }
}
