/**
 * The launch descriptor both installers write: the `mcpServers` object of
 * `claude_desktop_config.json`, kept as an ordered association list with the
 * insertion semantics of a Python dict (assigning an existing key replaces
 * its value in place; a new key goes to the end).
 */
module Descriptor {
  import opened Wrappers

  /** A JSON string or `null`, the value of one environment variable handed to a server. */
  datatype Json = Null | Str(text: string)

  datatype EnvVar = EnvVar(name: string, value: Json)

  /** How the desktop assistant starts one server: `command`, `args`, and `env` when the entry has that field. */
  datatype LaunchSpec = LaunchSpec(command: string, args: seq<string>, env: Option<seq<EnvVar>>)

  datatype Entry = Entry(name: string, spec: LaunchSpec)

  /** Where `npm install` puts the entry scripts of the servers started with `node`, relative to the module directory. */
  const FilesystemEntryPoint := "node_modules/@modelcontextprotocol/server-filesystem/dist/index.js"
  const MemoryEntryPoint := "node_modules/@modelcontextprotocol/server-memory/dist/index.js"
  const SqliteEntryPoint := "node_modules/@modelcontextprotocol/server-sqlite/dist/index.js"

  /** The `mcpServers` object, entries in insertion order. */
  type Servers = seq<Entry>

  /** What a file on disk holds: text the model does not interpret, or a descriptor one of the installers wrote. */
  datatype FileData = Raw(text: string) | Written(servers: Servers)

  /** The name of the descriptor file inside the assistant's configuration directory. */
  const ConfigFileName := "claude_desktop_config.json"

  /** `shutil.copy2(source, target)` when `source` exists; nothing otherwise. */
  function AfterBackup(files: map<string, FileData>, source: string, target: string): map<string, FileData>
  {
    if source in files then files[target := files[source]] else files
  }

  /** The process environment, as `os.environ` holds it. */
  type Environment = map<string, string>

  /** The keys of `d`, in order. */
  function Names(d: Servers): (r: seq<string>)
    ensures |r| == |d|
  {
    if d == [] then [] else [d[0].name] + Names(d[1..])
  }

  /** The `i`-th key is the name of the `i`-th entry. */
  lemma {:induction false} NamesAt(d: Servers)
    ensures forall i :: 0 <= i < |d| ==> Names(d)[i] == d[i].name
  {
    if d != [] {
      NamesAt(d[1..]);
    }
  }

  /** The keys of a prefix are a prefix of the keys. */
  lemma NamesPrefix(d: Servers, i: nat)
    requires i <= |d|
    ensures Names(d[..i]) == Names(d)[..i]
  {
    NamesAt(d);
    NamesAt(d[..i]);
  }

  /** `d.get(name)`: the value stored under `name`. */
  function Lookup(d: Servers, name: string): Option<LaunchSpec>
  {
    if d == [] then None else if d[0].name == name then Some(d[0].spec) else Lookup(d[1..], name)
  }

  predicate Distinct<T(==)>(s: seq<T>)
  {
    forall i, j :: 0 <= i < j < |s| ==> s[i] != s[j]
  }

  /**
   * `d[name] = spec`: an existing key keeps its position and takes the new
   * value; a new key is appended.
   */
  function Insert(d: Servers, name: string, spec: LaunchSpec): Servers
  {
    if d == [] then [Entry(name, spec)]
    else if d[0].name == name then [Entry(name, spec)] + d[1..]
    else [d[0]] + Insert(d[1..], name, spec)
  }

  /** After `d[name] = spec`, `name` maps to `spec` and every other key to what it mapped to before. */
  lemma {:induction false} InsertLookup(d: Servers, name: string, spec: LaunchSpec, n: string)
    ensures Lookup(Insert(d, name, spec), n) == if n == name then Some(spec) else Lookup(d, n)
  {
    if d != [] {
      if d[0].name == name {
        assert ([Entry(name, spec)] + d[1..])[1..] == d[1..];
      } else {
        InsertLookup(d[1..], name, spec, n);
        assert ([d[0]] + Insert(d[1..], name, spec))[1..] == Insert(d[1..], name, spec);
      }
    }
  }

  /** Assigning a key not yet present appends it. */
  lemma {:induction false} InsertFresh(d: Servers, name: string, spec: LaunchSpec)
    requires name !in Names(d)
    ensures Insert(d, name, spec) == d + [Entry(name, spec)]
  {
    if d != [] {
      assert Names(d) == [d[0].name] + Names(d[1..]);
      InsertFresh(d[1..], name, spec);
      assert d == [d[0]] + d[1..];
    }
  }

  /** Looking a key up in a list with one more entry at the end: the earlier entries win. */
  lemma {:induction false} LookupSnoc(d: Servers, e: Entry, name: string)
    ensures Lookup(d + [e], name) == if Lookup(d, name).Some? then Lookup(d, name) else if e.name == name then Some(e.spec) else None
  {
    if d != [] {
      assert (d + [e])[0] == d[0];
      assert (d + [e])[1..] == d[1..] + [e];
      LookupSnoc(d[1..], e, name);
    }
  }

  /** After `d[name] = spec` the key order is unchanged, except that a new key is appended. */
  lemma {:induction false} InsertNames(d: Servers, name: string, spec: LaunchSpec)
    ensures Names(Insert(d, name, spec)) == if name in Names(d) then Names(d) else Names(d) + [name]
  {
    if d != [] {
      if d[0].name == name {
        assert Names(d)[0] == name;
        assert Names(Insert(d, name, spec)) == Names(d) by {
          var r := [Entry(name, spec)] + d[1..];
          assert forall i :: 0 <= i < |d| ==> r[i].name == d[i].name;
        }
      } else {
        var tail := Insert(d[1..], name, spec);
        InsertNames(d[1..], name, spec);
        assert ([d[0]] + tail)[1..] == tail;
        assert Names(d) == [d[0].name] + Names(d[1..]);
        assert name in Names(d) <==> name in Names(d[1..]);
      }
    }
  }

  /** Assigns the entries of `es` one after the other, as a loop of `d[e.name] = e.spec` does. */
  function InsertAll(d: Servers, es: seq<Entry>): Servers
  {
    if es == [] then d
    else
      var last := es[|es| - 1];
      Insert(InsertAll(d, es[..|es| - 1]), last.name, last.spec)
  }

  /** The keys of `s` followed by those of `t` not seen before, in first-appearance order. */
  function AppendNew(s: seq<string>, t: seq<string>): seq<string>
  {
    if t == [] then s
    else
      var r := AppendNew(s, t[..|t| - 1]);
      if t[|t| - 1] in r then r else r + [t[|t| - 1]]
  }

  /** Exactly the keys of `s` and of `t` occur, each once per first appearance. */
  lemma {:induction false} AppendNewMembers(s: seq<string>, t: seq<string>)
    ensures forall x :: x in AppendNew(s, t) <==> x in s || x in t
  {
    if t != [] {
      var t' := t[..|t| - 1];
      AppendNewMembers(s, t');
      assert forall x :: x in t <==> x in t' || x == t[|t| - 1];
    }
  }

  /** The spec of the last entry of `es` named `name`: the one a sequence of assignments leaves behind. */
  function LastSpec(es: seq<Entry>, name: string): LaunchSpec
    requires name in Names(es)
  {
    var last := es[|es| - 1];
    if last.name == name then last.spec
    else
      NamesSnoc(es);
      LastSpec(es[..|es| - 1], name)
  }

  /** One more assignment after a sequence of them. */
  lemma InsertAllSnoc(d: Servers, es: seq<Entry>, e: Entry)
    ensures InsertAll(d, es + [e]) == Insert(InsertAll(d, es), e.name, e.spec)
  {
    assert (es + [e])[..|es|] == es;
  }

  /** The keys of a non-empty entry list: those of all but the last entry, then the last one's. */
  lemma NamesSnoc(es: seq<Entry>)
    requires es != []
    ensures Names(es) == Names(es[..|es| - 1]) + [es[|es| - 1].name]
  {
    var init, last := es[..|es| - 1], es[|es| - 1];
    assert es == init + [last];
    NamesAppend(init, [last]);
    assert Names([last]) == [last.name] + Names([]);
  }

  /** The keys of two entry lists laid end to end. */
  lemma {:induction false} NamesAppend(a: seq<Entry>, b: seq<Entry>)
    ensures Names(a + b) == Names(a) + Names(b)
  {
    if a == [] {
      assert a + b == b;
    } else {
      calc {
        Names(a + b);
        [a[0].name] + Names((a + b)[1..]);
        { assert (a + b)[1..] == a[1..] + b; }
        [a[0].name] + Names(a[1..] + b);
        { NamesAppend(a[1..], b); }
        [a[0].name] + (Names(a[1..]) + Names(b));
        ([a[0].name] + Names(a[1..])) + Names(b);
      }
    }
  }

  /** The keys after a sequence of assignments: the old keys, then each new key where it first appears. */
  lemma {:induction false} InsertAllNames(d: Servers, es: seq<Entry>)
    ensures Names(InsertAll(d, es)) == AppendNew(Names(d), Names(es))
  {
    if es != [] {
      var init := es[..|es| - 1];
      var last := es[|es| - 1];
      InsertAllNames(d, init);
      InsertNames(InsertAll(d, init), last.name, last.spec);
      NamesSnoc(es);
    }
  }

  /** The value under a key after a sequence of assignments: the last one assigned, else the old one. */
  lemma {:induction false} InsertAllLookup(d: Servers, es: seq<Entry>, name: string)
    ensures name in Names(es) ==> Lookup(InsertAll(d, es), name) == Some(LastSpec(es, name))
    ensures name !in Names(es) ==> Lookup(InsertAll(d, es), name) == Lookup(d, name)
  {
    if es != [] {
      var init := es[..|es| - 1];
      var last := es[|es| - 1];
      InsertAllLookup(d, init, name);
      InsertLookup(InsertAll(d, init), last.name, last.spec, name);
      NamesSnoc(es);
    }
  }

  /** Without repeated keys nothing is dropped: appending distinct new keys is plain concatenation. */
  lemma {:induction false} AppendNewDistinct(s: seq<string>, t: seq<string>)
    requires Distinct(s + t)
    ensures AppendNew(s, t) == s + t
  {
    if t != [] {
      var t' := t[..|t| - 1];
      assert s + t == (s + t') + [t[|t| - 1]];
      assert Distinct(s + t') by {
        forall i, j | 0 <= i < j < |s + t'| ensures (s + t')[i] != (s + t')[j] {
          assert (s + t')[i] == (s + t)[i] && (s + t')[j] == (s + t)[j];
        }
      }
      AppendNewDistinct(s, t');
      assert t[|t| - 1] !in s + t' by {
        forall k | 0 <= k < |s + t'| ensures (s + t')[k] != t[|t| - 1] {
          assert (s + t')[k] == (s + t)[k] && t[|t| - 1] == (s + t)[|s + t| - 1];
        }
      }
    }
  }

  /** New keys disjoint from the old ones are appended after them. */
  lemma {:induction false} AppendNewDisjoint(s: seq<string>, t: seq<string>)
    requires forall x :: x in t ==> x !in s
    ensures AppendNew(s, t) == s + AppendNew([], t)
  {
    if t != [] {
      var t' := t[..|t| - 1];
      AppendNewDisjoint(s, t');
      var u := AppendNew([], t');
      assert t[|t| - 1] in s + u <==> t[|t| - 1] in u;
    }
  }

  /** The keys of a dict are distinct. */
  lemma {:induction false} AppendNewKeepsDistinct(s: seq<string>, t: seq<string>)
    requires Distinct(s)
    ensures Distinct(AppendNew(s, t))
  {
    if t != [] {
      AppendNewKeepsDistinct(s, t[..|t| - 1]);
    }
  }
}
