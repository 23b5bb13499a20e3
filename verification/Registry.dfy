/** The tool catalog and what of it is declared to a model (pkg/tools/registry.go). */
module Registry {
  import opened Common

  datatype Tool = Tool(name: string, description: string, schema: string)

  datatype Definition = Definition(name: string, description: string, parameters: string)

  type Catalog = map<string, Tool>

  function DefinitionOf(tool: Tool): Definition {
    Definition(tool.name, tool.description, tool.schema)
  }

  /** The granted names the catalog knows, in the order and number they were granted. */
  function KnownOf(catalog: Catalog, granted: seq<string>): seq<string> {
    if granted == [] then []
    else
      var n := |granted| - 1;
      KnownOf(catalog, granted[..n]) + if granted[n] in catalog then [granted[n]] else []
  }

  lemma {:induction false} KnownIff(catalog: Catalog, granted: seq<string>, name: string)
    ensures name in KnownOf(catalog, granted) <==> name in granted && name in catalog
  {
    if granted != [] {
      var n := |granted| - 1;
      KnownIff(catalog, granted[..n], name);
      assert granted == granted[..n] + [granted[n]];
    }
  }

  /** The declared names stand at increasing places of the granted ones, and no known name is left out. */
  ghost predicate InOrder(catalog: Catalog, granted: seq<string>, known: seq<string>, places: seq<nat>) {
    && |places| == |known|
    && (forall i, j :: 0 <= i < j < |places| ==> places[i] < places[j])
    && (forall i :: 0 <= i < |places| ==> places[i] < |granted| && known[i] == granted[places[i]])
    && (forall k :: 0 <= k < |granted| && granted[k] in catalog ==> k in places)
  }

  lemma {:induction false} KnownInOrder(catalog: Catalog, granted: seq<string>) returns (places: seq<nat>)
    ensures InOrder(catalog, granted, KnownOf(catalog, granted), places)
  {
    if granted == [] {
      places := [];
    } else {
      var n := |granted| - 1;
      places := KnownInOrder(catalog, granted[..n]);
      if granted[n] in catalog {
        assert forall k :: 0 <= k < n && granted[k] in catalog ==> granted[..n][k] in catalog;
        places := places + [n];
        assert places[|places| - 1] == n;
      }
    }
  }

  class ToolRegistry {
    var tools: Catalog

    /** Every tool is filed under its own name. */
    ghost predicate Valid()
      reads this
    {
      forall n :: n in tools ==> tools[n].name == n
    }

    constructor ()
      ensures tools == map[] && Valid()
    {
      tools := map[];
    }

    method Register(tool: Tool)
      requires Valid()
      modifies this
      ensures Valid() && tools == old(tools)[tool.name := tool]
    {
      tools := tools[tool.name := tool];
    }

    method Get(name: string) returns (found: Option<Tool>)
      requires Valid()
      ensures found.Some? <==> name in tools
      ensures found.Some? ==> found.value == tools[name] && found.value.name == name
    {
      found := if name in tools then Some(tools[name]) else None;
    }

    /** A name is declared exactly when it was granted and is registered, under its own definition. */
    method Definitions(granted: seq<string>) returns (definitions: seq<Definition>)
      requires Valid()
      ensures |definitions| == |KnownOf(tools, granted)|
      ensures forall i :: 0 <= i < |definitions| ==>
                && definitions[i].name == KnownOf(tools, granted)[i]
                && definitions[i].name in tools && definitions[i] == DefinitionOf(tools[definitions[i].name])
      ensures forall i :: 0 <= i < |definitions| ==>
                && definitions[i].name in tools && definitions[i].name == tools[definitions[i].name].name
                && definitions[i].description == tools[definitions[i].name].description
                && definitions[i].parameters == tools[definitions[i].name].schema
      ensures forall n :: (exists d :: d in definitions && d.name == n) <==> n in granted && n in tools
    {
      definitions := [];
      for i := 0 to |granted|
        invariant |definitions| == |KnownOf(tools, granted[..i])|
        invariant forall k :: 0 <= k < |definitions| ==>
                    && definitions[k].name == KnownOf(tools, granted[..i])[k]
                    && definitions[k].name in tools && definitions[k] == DefinitionOf(tools[definitions[k].name])
      {
        assert granted[..i + 1][..i] == granted[..i];
        if granted[i] in tools {
          definitions := definitions + [DefinitionOf(tools[granted[i]])];
        }
      }
      assert granted[..|granted|] == granted;
      forall n ensures (exists d :: d in definitions && d.name == n) <==> n in granted && n in tools {
        KnownIff(tools, granted, n);
        NamesIff(tools, granted, definitions, n);
      }
    }
  }

  lemma NamesIff(catalog: Catalog, granted: seq<string>, definitions: seq<Definition>, name: string)
    requires |definitions| == |KnownOf(catalog, granted)|
    requires forall k :: 0 <= k < |definitions| ==> definitions[k].name == KnownOf(catalog, granted)[k]
    ensures (exists d :: d in definitions && d.name == name) <==> name in KnownOf(catalog, granted)
  {
    if name in KnownOf(catalog, granted) {
      var k :| 0 <= k < |KnownOf(catalog, granted)| && KnownOf(catalog, granted)[k] == name;
      assert definitions[k] in definitions;
    }
  }
}
