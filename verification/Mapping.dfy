// Which source tables are tracked, and under which name their rows reach the target.
module Mapping {
  import opened Common

  datatype TrackedTable = TrackedTable(databaseName: string, sourceSchema: string, sourceTable: string,
                                       targetSchema: string, targetTable: string)

  // Source name -> source schema -> source table -> entry of the configuration.
  type Index = map<string, map<string, map<string, TrackedTable>>>

  // A missing database name means the only source, or "default" when there are several; with no
  // source at all it stays empty.
  function DatabaseOf(tt: TrackedTable, sources: seq<string>): string {
    if tt.databaseName != "" || sources == [] then tt.databaseName
    else if |sources| == 1 then sources[0]
    else "default"
  }

  predicate Matches(tt: TrackedTable, sources: seq<string>, source: string, schema: string, table: string) {
    DatabaseOf(tt, sources) == source && tt.sourceSchema == schema && tt.sourceTable == table
  }

  // Scanning the configuration from its end, the first entry that matches.
  function Resolve(sources: seq<string>, tracked: seq<TrackedTable>,
                   source: string, schema: string, table: string): Option<TrackedTable> {
    if tracked == [] then None
    else if Matches(tracked[|tracked| - 1], sources, source, schema, table) then Some(tracked[|tracked| - 1])
    else Resolve(sources, tracked[..|tracked| - 1], source, schema, table)
  }

  function GetTableMapping(index: Index, source: string, schema: string, table: string): Option<TrackedTable> {
    if source in index && schema in index[source] && table in index[source][schema]
    then Some(index[source][schema][table])
    else None
  }

  // Resolution is "last entry wins", and fails exactly when there is none. An entry with a database name is for the
  // source of that name; one without is for the only source, for the source "default" if there are several, and for
  // the source without a name if there is none.
  lemma {:induction false} ResolveIsLastMatch(sources: seq<string>, tracked: seq<TrackedTable>,
                                              source: string, schema: string, table: string, i: nat)
    ensures var isFor := (tt: TrackedTable) =>
                           && tt.sourceSchema == schema && tt.sourceTable == table
                           && source == if tt.databaseName != "" then tt.databaseName
                                        else if |sources| == 1 then sources[0]
                                        else if |sources| > 1 then "default"
                                        else "";
            && (i < |tracked| && isFor(tracked[i]) && (forall j :: i < j < |tracked| ==> !isFor(tracked[j]))
                ==> Resolve(sources, tracked, source, schema, table) == Some(tracked[i]))
            && (Resolve(sources, tracked, source, schema, table).None?
                <==> forall j :: 0 <= j < |tracked| ==> !isFor(tracked[j]))
  {
    if tracked != [] {
      var n := |tracked| - 1;
      ResolveIsLastMatch(sources, tracked[..n], source, schema, table, i);
      if !Matches(tracked[n], sources, source, schema, table) {
        assert forall j :: 0 <= j < n ==> tracked[..n][j] == tracked[j];
      }
    }
  }

  // The index built by overwriting nested map entries answers every lookup as the scan does.
  method BuildIndex(sources: seq<string>, tracked: seq<TrackedTable>) returns (index: Index)
    ensures forall source, schema, table ::
              GetTableMapping(index, source, schema, table) == Resolve(sources, tracked, source, schema, table)
  {
    index := map[];
    for i := 0 to |tracked|
      invariant forall source, schema, table ::
                  GetTableMapping(index, source, schema, table) == Resolve(sources, tracked[..i], source, schema, table)
    {
      var tt := tracked[i];
      var dbName := tt.databaseName;
      if dbName == "" && |sources| > 0 {
        if |sources| == 1 {
          dbName := sources[0];
        } else {
          dbName := "default";
        }
      }
      ghost var before := index;
      if dbName !in index {
        index := index[dbName := map[]];
      }
      if tt.sourceSchema !in index[dbName] {
        index := index[dbName := index[dbName][tt.sourceSchema := map[]]];
      }
      index := index[dbName := index[dbName][tt.sourceSchema := index[dbName][tt.sourceSchema][tt.sourceTable := tt]]];
      assert tracked[..i + 1][..i] == tracked[..i] && tracked[..i + 1][i] == tt;
      forall source, schema, table
        ensures GetTableMapping(index, source, schema, table)
                == Resolve(sources, tracked[..i + 1], source, schema, table)
      {
        assert dbName == DatabaseOf(tt, sources);
        assert GetTableMapping(index, source, schema, table) ==
          if source == dbName && schema == tt.sourceSchema && table == tt.sourceTable then Some(tt)
          else GetTableMapping(before, source, schema, table);
      }
    }
    assert tracked[..|tracked|] == tracked;
  }

  // ---------- the server's schema overrides ----------

  datatype SchemaMapping = SchemaMapping(sourceSchema: string, targetSchema: string)

  // First match wins; a schema without an override keeps its name.
  function MapSchema(mappings: seq<SchemaMapping>, schema: string): string {
    if mappings == [] then schema
    else if mappings[0].sourceSchema == schema then mappings[0].targetSchema
    else MapSchema(mappings[1..], schema)
  }

  lemma {:induction false} MapSchemaIsFirstMatch(mappings: seq<SchemaMapping>, schema: string, i: nat)
    requires i <= |mappings|
    requires forall j :: 0 <= j < i ==> mappings[j].sourceSchema != schema
    ensures i == |mappings| ==> MapSchema(mappings, schema) == schema
    ensures i < |mappings| && mappings[i].sourceSchema == schema
            ==> MapSchema(mappings, schema) == mappings[i].targetSchema
  {
    if i > 0 {
      MapSchemaIsFirstMatch(mappings[1..], schema, i - 1);
    }
  }
}
