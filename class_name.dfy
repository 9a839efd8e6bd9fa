/** The Jasmin class name the compiler derives from the input path: the file's stem,
    with every character outside `[A-Za-z0-9_]` replaced by `_`, `Output` when nothing is
    left, a `C` in front when it does not start with a letter, and the first letter in
    upper case. Paths use `/` as the directory separator. */
module ClassName {
  import opened Wrappers

  predicate IsLetter(c: char) {
    'a' <= c <= 'z' || 'A' <= c <= 'Z'
  }

  /** The characters the class name keeps: `[a-zA-Z0-9_]`. */
  predicate IsWordChar(c: char) {
    IsLetter(c) || '0' <= c <= '9' || c == '_'
  }

  predicate AllWordChars(s: string) {
    forall i :: 0 <= i < |s| ==> IsWordChar(s[i])
  }

  /** `str.upper` on one character, as far as a class name needs it: ASCII letters. */
  function UpperChar(c: char): (u: char)
    ensures IsLetter(c) ==> 'A' <= u <= 'Z' && (u == c || u as int == c as int - 32)
    ensures !('a' <= c <= 'z') ==> u == c
  {
    if 'a' <= c <= 'z' then (c as int - 32) as char else c
  }

  /** `os.path.basename`: the text after the last `/`. */
  function Basename(path: string): (r: string)
    ensures |r| <= |path| && r == path[|path| - |r|..]
    ensures '/' !in r
    ensures r == path || path[|path| - |r| - 1] == '/'
  {
    if path == [] then []
    else if path[|path| - 1] == '/' then []
    else Basename(path[..|path| - 1]) + [path[|path| - 1]]
  }

  /** The index of the last `.` in `s`, if any. */
  function LastDot(s: string): (r: Option<nat>)
    ensures r.None? ==> '.' !in s
    ensures r.Some? ==> r.value < |s| && s[r.value] == '.' && '.' !in s[r.value + 1..]
  {
    if s == [] then None
    else if s[|s| - 1] == '.' then Some(|s| - 1)
    else
      var r := LastDot(s[..|s| - 1]);
      assert r.Some? ==> s[..|s| - 1][r.value + 1..] + [s[|s| - 1]] == s[r.value + 1..];
      r
  }

  predicate AllDots(s: string) {
    forall i :: 0 <= i < |s| ==> s[i] == '.'
  }

  /** `os.path.splitext(name)[0]`: the name without its last `.ext`. A name whose dots
      before the last one are all it has (`.bashrc`, `..`) keeps its last dot. */
  function Stem(name: string): (r: string)
    ensures r <= name
    ensures '.' !in name ==> r == name
  {
    match LastDot(name)
    case None => name
    case Some(d) => if AllDots(name[..d]) then name else name[..d]
  }

  /** `re.sub(r'[^a-zA-Z0-9_]', '_', s)`. */
  function Sanitize(s: string): (r: string)
    ensures |r| == |s| && AllWordChars(r)
    ensures forall i :: 0 <= i < |s| ==> (r[i] == s[i] <==> IsWordChar(s[i]))
  {
    seq(|s|, i requires 0 <= i < |s| => if IsWordChar(s[i]) then s[i] else '_')
  }

  /** The sanitised stem made to start with a letter: `Output` when it is empty, and a `C`
      in front when it starts with a digit or `_`. */
  function Lettered(base: string): (r: string)
    requires AllWordChars(base)
    ensures r != [] && IsLetter(r[0]) && AllWordChars(r)
    ensures base == [] ==> r == "Output"
    ensures base != [] && IsLetter(base[0]) ==> r == base
    ensures base != [] && !IsLetter(base[0]) ==> r[1..] == base && r[0] == 'C'
  {
    if base == [] then
      var o := "Output";
      assert IsWordChar(o[0]) && IsWordChar(o[1]) && IsWordChar(o[2]);
      assert IsWordChar(o[3]) && IsWordChar(o[4]) && IsWordChar(o[5]);
      o
    else if IsLetter(base[0]) then base
    else "C" + base
  }

  /** The first letter in upper case, the rest as it is. */
  function Capitalize(s: string): (r: string)
    requires s != [] && IsLetter(s[0]) && AllWordChars(s)
    ensures |r| == |s| && AllWordChars(r) && 'A' <= r[0] <= 'Z'
    ensures r[1..] == s[1..] && ('A' <= s[0] <= 'Z' ==> r == s)
  {
    [UpperChar(s[0])] + s[1..]
  }

  /** `_derive_class_name`: a name the JVM accepts for the generated class. */
  function DeriveClassName(path: string): (r: string)
    ensures r != [] && AllWordChars(r)
    ensures 'A' <= r[0] <= 'Z'
  {
    Capitalize(Lettered(Sanitize(Stem(Basename(path)))))
  }

  /** How the name is built from the sanitised stem: `Output` when it is empty; otherwise
      the stem with its first letter upper-cased, behind a `C` when it does not start with a
      letter. Every character after the first is kept as it is. */
  lemma DeriveFromStem(path: string)
    ensures var base := Sanitize(Stem(Basename(path)));
      var r := DeriveClassName(path);
      (base == [] ==> r == "Output") &&
      (base != [] && IsLetter(base[0]) ==>
        r[1..] == base[1..] && r[0] == UpperChar(base[0]) && |r| == |base|) &&
      (base != [] && !IsLetter(base[0]) ==> r == "C" + base)
  {
    CapitalLettered(Sanitize(Stem(Basename(path))));
  }

  lemma CapitalLettered(base: string)
    requires AllWordChars(base)
    ensures var r := Capitalize(Lettered(base));
      (base == [] ==> r == "Output") &&
      (base != [] && IsLetter(base[0]) ==>
        r[1..] == base[1..] && r[0] == UpperChar(base[0]) && |r| == |base|) &&
      (base != [] && !IsLetter(base[0]) ==> r == "C" + base)
  {
    var l := Lettered(base);
    if base != [] && !IsLetter(base[0]) {
      assert l == [l[0]] + l[1..];
    }
  }

  /** A name made only of word characters comes back from the sanitiser unchanged. */
  lemma SanitizeKeeps(s: string)
    requires AllWordChars(s)
    ensures Sanitize(s) == s
  {
  }

  /** A file name loses its last extension. */
  lemma StemOfFile(name: string, ext: string)
    requires '.' !in name && name != [] && '.' !in ext
    ensures Stem(name + "." + ext) == name
  {
    var file := name + "." + ext;
    assert file[|name|] == '.';
    assert file[|name| + 1..] == ext;
    assert LastDot(file) == Some(|name|);
    assert file[..|name|] == name;
    assert !AllDots(file[..|name|]) by {
      assert name[0] != '.';
    }
  }

  /** The file name's stem survives a directory part and a last extension. */
  lemma StemOfPath(dir: string, name: string, ext: string)
    requires '/' !in name && '.' !in name && name != []
    requires '/' !in ext && '.' !in ext
    ensures Stem(Basename(dir + "/" + (name + "." + ext))) == name
  {
    BasenameAfterSlash(dir, name + "." + ext);
    StemOfFile(name, ext);
  }

  lemma {:induction false} BasenameAfterSlash(dir: string, file: string)
    requires '/' !in file
    ensures Basename(dir + "/" + file) == file
    decreases |file|
  {
    if file == [] {
      assert (dir + "/" + file)[|dir + "/" + file| - 1] == '/';
    } else {
      var path := dir + "/" + file;
      assert path[..|path| - 1] == dir + "/" + file[..|file| - 1];
      BasenameAfterSlash(dir, file[..|file| - 1]);
    }
  }

  /** A path without a directory part is its own base name. */
  lemma BasenameNoSlash(path: string)
    requires '/' !in path
    ensures Basename(path) == path
  {
  }

  /** A derived name derives to itself: it has no directory, no extension, nothing to
      sanitise, starts with a letter, and that letter is already upper case. */
  lemma DeriveIdempotent(path: string)
    ensures DeriveClassName(DeriveClassName(path)) == DeriveClassName(path)
  {
    var r := DeriveClassName(path);
    forall i | 0 <= i < |r|
      ensures r[i] != '/' && r[i] != '.'
    {
      assert IsWordChar(r[i]);
    }
    BasenameNoSlash(r);
    SanitizeKeeps(r);
    assert Sanitize(Stem(Basename(r))) == r;
    assert Lettered(r) == r;
  }

  lemma StockStemWordChars()
    ensures AllWordChars("exemplo_estoque")
  {
    var s := "exemplo_estoque";
    assert IsWordChar(s[0]) && IsWordChar(s[1]) && IsWordChar(s[2]) && IsWordChar(s[3]) && IsWordChar(s[4]);
    assert IsWordChar(s[5]) && IsWordChar(s[6]) && IsWordChar(s[7]) && IsWordChar(s[8]) && IsWordChar(s[9]);
    assert IsWordChar(s[10]) && IsWordChar(s[11]) && IsWordChar(s[12]) && IsWordChar(s[13]) && IsWordChar(s[14]);
  }

  lemma TestStemWordChars()
    ensures AllWordChars("test_negative_int")
  {
    var s := "test_negative_int";
    assert IsWordChar(s[0]) && IsWordChar(s[1]) && IsWordChar(s[2]) && IsWordChar(s[3]) && IsWordChar(s[4]);
    assert IsWordChar(s[5]) && IsWordChar(s[6]) && IsWordChar(s[7]) && IsWordChar(s[8]) && IsWordChar(s[9]);
    assert IsWordChar(s[10]) && IsWordChar(s[11]) && IsWordChar(s[12]) && IsWordChar(s[13]) && IsWordChar(s[14]);
    assert IsWordChar(s[15]) && IsWordChar(s[16]);
  }

  lemma StockCapital()
    ensures [UpperChar("exemplo_estoque"[0])] + "exemplo_estoque"[1..] == "Exemplo_estoque"
  {
    assert UpperChar('e') == 'E';
  }

  lemma TestCapital()
    ensures [UpperChar("test_negative_int"[0])] + "test_negative_int"[1..] == "Test_negative_int"
  {
    assert UpperChar('t') == 'T';
  }

  /** A stem of word characters starting with a letter is the class name, with that
      letter in upper case. */
  lemma DeriveFromWordStem(path: string, stem: string)
    requires Stem(Basename(path)) == stem && stem != [] && IsLetter(stem[0]) && AllWordChars(stem)
    ensures DeriveClassName(path) == [UpperChar(stem[0])] + stem[1..]
  {
    SanitizeKeeps(stem);
    assert Lettered(stem) == stem;
  }

  lemma StockPieces()
    ensures "exemplo_estoque" + "." + "txt" == "exemplo_estoque.txt"
  {
  }

  lemma TestPieces()
    ensures "/tmp" + "/" + ("test_negative_int" + "." + "txt") == "/tmp/test_negative_int.txt"
  {
  }

  /** The class name of the stock example program `exemplo_estoque.txt`. */
  lemma StockExampleName(path: string)
    requires path == "exemplo_estoque.txt"
    ensures DeriveClassName(path) == "Exemplo_estoque"
  {
    var name := "exemplo_estoque";
    StockPieces();
    BasenameNoSlash(path);
    StemOfFile(name, "txt");
    StockStemWordChars();
    DeriveFromWordStem(path, name);
    StockCapital();
  }

  /** The class name of a test program written to `/tmp/test_negative_int.txt`. */
  lemma TestExampleName(path: string)
    requires path == "/tmp/test_negative_int.txt"
    ensures DeriveClassName(path) == "Test_negative_int"
  {
    var name := "test_negative_int";
    TestPieces();
    StemOfPath("/tmp", name, "txt");
    TestStemWordChars();
    DeriveFromWordStem(path, name);
    TestCapital();
  }
}
