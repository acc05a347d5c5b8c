/** Loading a document through its `extends` chain. */
module Loading {
  import opened Wrappers
  import opened Documents
  import opened Merging

  /** The files of the document directory: the parsed text, or nothing when it does not parse. */
  type Files = map<string, Option<Json>>

  /** `validate_document_name` */
  predicate ValidName(name: string) {
    name != "" && name[0] != '.' && '/' !in name && '\\' !in name
  }

  /** `remove_parent`, the reading half. */
  function ParentOf(doc: Json): Result<Option<string>> {
    if !doc.Obj? then Err(Config)
    else if "extends" !in doc.fields then Ok(None)
    else
      match doc.fields["extends"]
      case Str(s) => if s == "" then Err(Config) else Ok(Some(s))
      case _ => Err(Config)
  }

  /** The document without its parent's name. */
  function Body(doc: Json): Json {
    if doc.Obj? then Obj(doc.fields - {"extends"}) else doc
  }

  function Read(files: Files, name: string): Result<Json> {
    if !ValidName(name) || name !in files then Err(Config)
    else if files[name].None? then Err(Serialization)
    else Ok(files[name].value)
  }

  function OnStack(stack: seq<string>): set<string> { set x | x in stack }

  function Loaded(files: Files, name: string, stack: seq<string>): Result<Json>
    decreases |files.Keys - OnStack(stack)|
  {
    if name in stack then Err(Config)
    else
      var doc := Read(files, name);
      if doc.Err? then doc
      else
        var parent := ParentOf(doc.value);
        if parent.Err? then Err(parent.error)
        else if parent.value.None? then Ok(Body(doc.value))
        else
          StackShrinksRest(files, name, stack);
          var base := Loaded(files, parent.value.value, stack + [name]);
          if base.Err? then base else Ok(Merge(base.value, Body(doc.value)))
  }

  lemma StackShrinksRest(files: Files, name: string, stack: seq<string>)
    requires name in files && name !in stack
    ensures |files.Keys - OnStack(stack + [name])| < |files.Keys - OnStack(stack)|
  {
    var a, b := files.Keys - OnStack(stack + [name]), files.Keys - OnStack(stack);
    assert name in b && a == b - {name};
  }

  /** The loader with its inheritance stack. */
  class Loader {
    const files: Files
    var stack: seq<string>

    constructor (files: Files)
      ensures this.files == files && stack == []
    {
      this.files := files;
      stack := [];
    }

    method Load(name: string) returns (r: Result<Json>)
      modifies this
      ensures stack == old(stack)
      ensures r == Loaded(files, name, old(stack))
      decreases |files.Keys - OnStack(stack)|
    {
      var k := 0;
      while k < |stack|
        invariant 0 <= k <= |stack|
        invariant stack == old(stack)
        invariant name !in stack[..k]
      {
        if stack[k] == name {
          return Err(Config);
        }
        k := k + 1;
      }
      assert stack[..k] == stack;
      if !ValidName(name) || name !in files {
        return Err(Config);
      }
      if files[name].None? {
        return Err(Serialization);
      }
      var current := files[name].value;
      var parent := ParentOf(current);
      if parent.Err? {
        return Err(parent.error);
      }
      current := Body(current);
      if parent.value.None? {
        return Ok(current);
      }
      StackShrinksRest(files, name, stack);
      stack := stack + [name];
      var base := Load(parent.value.value);
      stack := stack[..|stack| - 1];
      if base.Err? {
        return base;
      }
      var merged := MergeDocuments(base.value, current);
      r := Ok(merged);
    }
  }

  /** `resolve_document`: the loaded document with the overrides applied on top. */
  method ResolveDocument(files: Files, name: string, overrides: map<string, Json>, explicit: bool)
    returns (r: Result<Json>)
    ensures r.Ok? <==> Loaded(files, name, []).Ok?
                       && Dotted(Loaded(files, name, []).value, SortedKeys(overrides), overrides, explicit).1.Ok?
    ensures r.Ok? ==> r.value == Dotted(Loaded(files, name, []).value, SortedKeys(overrides), overrides, explicit).0
  {
    hide Loaded, Dotted, SortedKeys;
    var loader := new Loader(files);
    var loaded := loader.Load(name);
    if loaded.Err? {
      return loaded;
    }
    var document := new Document(loaded.value);
    var applied := document.ApplyDotted(overrides, explicit);
    r := if applied.Err? then Err(applied.error) else Ok(document.value);
  }

  // ---------------------------------------------------------------- when loading succeeds, and what it gives

  ghost predicate HasParent(files: Files, name: string, parent: Option<string>) {
    Read(files, name).Ok? && ParentOf(Read(files, name).value) == Ok(parent)
  }

  function Next(chain: seq<string>, i: nat): Option<string>
    requires i < |chain|
  {
    if i + 1 < |chain| then Some(chain[i + 1]) else None
  }

  /** `chain` runs from a document to its root ancestor: each is present, well formed and named by the
      one before, none occurs twice, and the last has no parent. */
  ghost predicate IsChain(files: Files, chain: seq<string>) {
    && chain != []
    && (forall i, j :: 0 <= i < j < |chain| ==> chain[i] != chain[j])
    && (forall i {:trigger Next(chain, i)} :: 0 <= i < |chain| ==> HasParent(files, chain[i], Next(chain, i)))
  }

  function BodyOf(files: Files, name: string): Json {
    if Read(files, name).Ok? then Body(Read(files, name).value) else Null
  }

  /** A link of a chain: a document with a plain file name that parses to a mapping, with no `extends` at the end of the
      chain and else with the next name there; its body is the mapping without that key. */
  lemma HasParentExactlyWhen(files: Files, name: string, parent: Option<string>)
    ensures HasParent(files, name, parent) <==>
      (&& name != "" && name[0] != '.' && '/' !in name && '\\' !in name
       && name in files && files[name].Some? && files[name].value.Obj?
       && match parent
          case None => Get(files[name].value, ["extends"]) == None
          case Some(next) => next != "" && Get(files[name].value, ["extends"]) == Some(Str(next)))
    ensures HasParent(files, name, parent) ==>
      forall key :: Get(BodyOf(files, name), [key]) ==
                    if key == "extends" then None else Get(files[name].value, [key])
  {
    if name in files && files[name].Some? {
      var doc := files[name].value;
      forall key ensures Get(doc, [key]) == (if doc.Obj? && key in doc.fields then Some(doc.fields[key]) else None)
                      && Get(Body(doc), [key]) == (if doc.Obj? && key in doc.fields && key != "extends"
                                                   then Some(doc.fields[key]) else None)
      {
        GetStep(doc, key, []);
        GetStep(Body(doc), key, []);
        assert [key] + [] == [key];
      }
    }
  }

  /** The bodies along the chain, root ancestor first. */
  ghost function Bodies(files: Files, chain: seq<string>): seq<Json> {
    seq(|chain|, i requires 0 <= i < |chain| => BodyOf(files, chain[|chain| - 1 - i]))
  }

  /** The left fold of merge. */
  ghost function MergeAll(docs: seq<Json>): Json
    requires docs != []
  {
    if |docs| == 1 then docs[0] else Merge(MergeAll(docs[..|docs| - 1]), docs[|docs| - 1])
  }

  lemma BodiesStep(files: Files, chain: seq<string>)
    requires IsChain(files, chain)
    ensures |chain| > 1 ==> IsChain(files, chain[1..])
    ensures |chain| > 1 ==> Bodies(files, chain)[..|chain| - 1] == Bodies(files, chain[1..])
    ensures Bodies(files, chain)[|chain| - 1] == BodyOf(files, chain[0])
  {
    hide HasParent, BodyOf;
    assert HasParent(files, chain[0], Next(chain, 0));
    if |chain| > 1 {
      var rest := chain[1..];
      forall i | 0 <= i < |rest| ensures HasParent(files, rest[i], Next(rest, i)) {
        assert HasParent(files, chain[i + 1], Next(chain, i + 1));
      }
    }
  }

  lemma ReadName(files: Files, name: string)
    ensures Read(files, name).Ok? ==> name in files
  {
  }

  lemma {:induction false} ChainLoads(files: Files, chain: seq<string>, stack: seq<string>)
    requires IsChain(files, chain) && forall i :: 0 <= i < |chain| ==> chain[i] !in stack
    ensures Loaded(files, chain[0], stack) == Ok(MergeAll(Bodies(files, chain)))
    decreases |chain|
  {
    hide Merge, Read, ParentOf, Body;
    BodiesStep(files, chain);
    assert HasParent(files, chain[0], Next(chain, 0));
    ReadName(files, chain[0]);
    if |chain| > 1 {
      forall i | 0 <= i < |chain[1..]| ensures chain[1..][i] !in stack + [chain[0]] {
        assert chain[1..][i] == chain[i + 1];
      }
      ChainLoads(files, chain[1..], stack + [chain[0]]);
    }
  }

  lemma {:induction false} LoadedIsChain(files: Files, name: string, stack: seq<string>) returns (chain: seq<string>)
    requires Loaded(files, name, stack).Ok?
    ensures IsChain(files, chain) && chain[0] == name && forall i :: 0 <= i < |chain| ==> chain[i] !in stack
    decreases |files.Keys - OnStack(stack)|
  {
    hide Merge;
    var doc := Read(files, name).value;
    var parent := ParentOf(doc).value;
    if parent.None? {
      chain := [name];
    } else {
      StackShrinksRest(files, name, stack);
      var rest := LoadedIsChain(files, parent.value, stack + [name]);
      chain := [name] + rest;
      forall i | 0 <= i < |rest| ensures rest[i] != name && rest[i] !in stack {
        assert rest[i] !in stack + [name];
      }
      forall i | 0 <= i < |chain| ensures HasParent(files, chain[i], Next(chain, i)) {
        if i > 0 {
          assert chain[i] == rest[i - 1] && HasParent(files, rest[i - 1], Next(rest, i - 1));
        }
      }
    }
  }

  lemma {:induction false} MergedHasNoExtends(docs: seq<Json>)
    requires docs != [] && forall i :: 0 <= i < |docs| ==> docs[i].Obj? && "extends" !in docs[i].fields
    ensures MergeAll(docs).Obj? && "extends" !in MergeAll(docs).fields
  {
    if |docs| > 1 {
      MergedHasNoExtends(docs[..|docs| - 1]);
      MergeField(MergeAll(docs[..|docs| - 1]), docs[|docs| - 1], "extends");
    }
  }

  /** Loading succeeds exactly when the chain of parents is present, well formed and without a cycle;
      it gives the merge from the root ancestor to the document, without an `extends` key. */
  lemma LoadsExactlyChains(files: Files, name: string, v: Json)
    ensures (Loaded(files, name, []) == Ok(v)) <==>
            (exists chain :: IsChain(files, chain) && chain[0] == name && v == MergeAll(Bodies(files, chain)))
    ensures Loaded(files, name, []) == Ok(v) ==> v.Obj? && "extends" !in v.fields
  {
    hide Merge, HasParent;
    if Loaded(files, name, []) == Ok(v) {
      var chain := LoadedIsChain(files, name, []);
      ChainLoads(files, chain, []);
      ChainBodies(files, chain);
      MergedHasNoExtends(Bodies(files, chain));
    }
    forall chain | IsChain(files, chain) && chain[0] == name && v == MergeAll(Bodies(files, chain))
      ensures Loaded(files, name, []) == Ok(v)
    {
      ChainLoads(files, chain, []);
    }
  }

  lemma BodyIsPlain(files: Files, name: string, parent: Option<string>)
    requires HasParent(files, name, parent)
    ensures BodyOf(files, name).Obj? && "extends" !in BodyOf(files, name).fields
  {
  }

  lemma ChainBodies(files: Files, chain: seq<string>)
    requires IsChain(files, chain)
    ensures Bodies(files, chain) != []
    ensures forall i :: 0 <= i < |chain| ==>
              Bodies(files, chain)[i].Obj? && "extends" !in Bodies(files, chain)[i].fields
  {
    hide HasParent, BodyOf;
    var bodies := Bodies(files, chain);
    forall i | 0 <= i < |chain| ensures bodies[i].Obj? && "extends" !in bodies[i].fields {
      var k := |chain| - 1 - i;
      BodyIsPlain(files, chain[k], Next(chain, k));
      assert bodies[i] == BodyOf(files, chain[k]);
    }
  }
}
