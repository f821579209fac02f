/** The naming rules of `megane/configs.py`: a configuration read from a file
    is named after the file when it does not name itself, and a model's
    weight files are named after the model. */
module Configs {

  /** A configuration value: a string, or anything else. */
  datatype Value = Text(text: string) | Other(tag: int)

  type Config = map<string, Value>

  const NameKey: string := "name"

  /** `s.rfind(c)`: the last position holding `c`, or -1. */
  function RFind(s: string, c: char): (r: int)
    ensures -1 <= r < |s|
    ensures r >= 0 ==> s[r] == c
    ensures forall k :: r < k < |s| ==> s[k] != c
  {
    if |s| == 0 then -1
    else if s[|s| - 1] == c then |s| - 1
    else RFind(s[..|s| - 1], c)
  }

  /** `os.path.basename` on POSIX: what follows the last `/`. */
  function Basename(path: string): (r: string)
    ensures |r| <= |path| && r == path[|path| - |r|..]
    ensures |r| < |path| ==> path[|path| - |r| - 1] == '/'
    ensures forall k :: 0 <= k < |r| ==> r[k] != '/'
  {
    path[RFind(path, '/') + 1..]
  }

  /** Whether some character before position `dot` is not a dot: a name made
      only of leading dots (`.bashrc`) has no extension. */
  predicate HasStem(name: string, dot: int)
    requires dot <= |name|
  {
    exists k :: 0 <= k < dot && name[k] != '.'
  }

  /** `os.path.splitext(name)[0]` for a name without `/`: everything before
      the last dot, unless that dot is only preceded by dots. */
  function StripExtension(name: string): (r: string)
    ensures |r| <= |name| && r == name[..|r|]
    ensures |r| < |name| ==> name[|r|] == '.' && '.' !in name[|r| + 1..] && HasStem(name, |r|)
    ensures |r| == |name| ==> '.' !in name || !HasStem(name, RFind(name, '.'))
  {
    var dot := RFind(name, '.');
    if dot >= 0 && HasStem(name, dot) then name[..dot] else name
  }

  /** `read`'s naming rule: a configuration without `"name"` is named after
      its file, without directory or extension; nothing else changes. */
  function Read(config: Config, path: string): (r: Config)
    ensures r.Keys == config.Keys + {NameKey}
    ensures forall k :: k in config ==> r[k] == config[k]
    ensures NameKey !in config ==> r[NameKey] == Text(StripExtension(Basename(path)))
  {
    if NameKey !in config then config[NameKey := Text(StripExtension(Basename(path)))]
    else config
  }

  /** The usual case: `<dir>/<stem>.<ext>` names the configuration `<stem>`,
      dots inside the stem included. */
  lemma DefaultName(config: Config, dir: string, stem: string, ext: string)
    requires NameKey !in config
    requires '/' !in stem && '/' !in ext && '.' !in ext
    requires exists k :: 0 <= k < |stem| && stem[k] != '.'
    ensures Read(config, dir + "/" + stem + "." + ext)[NameKey] == Text(stem)
  {
    var file := stem + "." + ext;
    assert dir + "/" + stem + "." + ext == (dir + "/") + file;
    BasenameOf(dir + "/", file);
    StripOf(stem, ext);
  }

  /** The stem of `<stem>.<ext>` is `<stem>` when the extension has no dot. */
  lemma StripOf(stem: string, ext: string)
    requires '.' !in ext
    requires exists k :: 0 <= k < |stem| && stem[k] != '.'
    ensures StripExtension(stem + "." + ext) == stem
  {
    var file := stem + "." + ext;
    assert file[|stem|] == '.';
    assert forall k :: |stem| < k < |file| ==> file[k] == ext[k - |stem| - 1];
    var dot := RFind(file, '.');
    assert dot == |stem|;
    var w :| 0 <= w < |stem| && stem[w] != '.';
    assert file[w] == stem[w];
    assert HasStem(file, dot);
    assert file[..dot] == stem;
  }

  /** The basename of a directory followed by a `/`-free file name is that name. */
  lemma BasenameOf(dir: string, file: string)
    requires |dir| > 0 && dir[|dir| - 1] == '/' && '/' !in file
    ensures Basename(dir + file) == file
  {
    var p := dir + file;
    assert forall k :: |dir| <= k < |p| ==> p[k] == file[k - |dir|];
    assert p[|dir| - 1] == '/';
    assert RFind(p, '/') == |dir| - 1;
  }

  /** A name with no dot at all is its own stem. */
  lemma NoExtension(config: Config, path: string)
    requires NameKey !in config && '.' !in Basename(path)
    ensures Read(config, path)[NameKey] == Text(Basename(path))
  {
  }

  /** `ModelConfig.latest_weight_name`. */
  function LatestWeightName(name: string): (r: string)
    ensures |r| == |name| + 10 && r[..|name|] == name && r[|name|..] == ".latest.pt"
  {
    name + ".latest.pt"
  }

  /** `ModelConfig.best_weight_name`. */
  function BestWeightName(name: string): (r: string)
    ensures |r| == |name| + 8 && r[..|name|] == name && r[|name|..] == ".best.pt"
  {
    name + ".best.pt"
  }

  /** The latest and the best weights never share a file name, whatever the
      two model names. */
  lemma WeightNamesDistinct(a: string, b: string)
    ensures LatestWeightName(a) != BestWeightName(b)
  {
    var l, bw := LatestWeightName(a), BestWeightName(b);
    if |l| == |bw| {
      assert l[|l| - 8] == 'a';
      assert bw[|bw| - 8] == '.';
    }
  }

  /** Different models get different weight files. */
  lemma WeightNamesInjective(a: string, b: string)
    ensures LatestWeightName(a) == LatestWeightName(b) ==> a == b
    ensures BestWeightName(a) == BestWeightName(b) ==> a == b
  {
    if LatestWeightName(a) == LatestWeightName(b) {
      assert a == LatestWeightName(a)[..|a|];
    }
    if BestWeightName(a) == BestWeightName(b) {
      assert a == BestWeightName(a)[..|a|];
    }
  }
}
