/**
 The document store as this code sees it. Two collaborators are modelled as
 abstract state: the index contents that `ElasticsearchOperations.save` writes to, and
 the named index templates that `IndexOperations` checks for and installs.
 */
module Store {

  /** The documents an index holds; an index that was never written to holds none. */
  function Documents<D>(indices: map<string, seq<D>>, index: string): seq<D>
  {
    if index in indices then indices[index] else []
  }

  /**
   The store after `docs` were written, in order, to the index named `index`. The
   index is created on its first write; writing no documents changes nothing.
   */
  function Appended<D>(indices: map<string, seq<D>>, index: string, docs: seq<D>): (r: map<string, seq<D>>)
    ensures r.Keys == if docs == [] then indices.Keys else indices.Keys + {index}
  {
    if docs == [] then indices else indices[index := Documents(indices, index) + docs]
  }

  /** Writing to one index changes that index only, and only by adding the documents at its end. */
  lemma AppendedChangesOnlyTarget<D>(indices: map<string, seq<D>>, index: string, docs: seq<D>, other: string)
    ensures Documents(Appended(indices, index, docs), index) == Documents(indices, index) + docs
    ensures other != index ==> Documents(Appended(indices, index, docs), other) == Documents(indices, other)
    ensures other != index ==> (other in Appended(indices, index, docs) <==> other in indices)
  {
  }

  /** The store after writing the documents one at a time, first to last. */
  function AppendedOneByOne<D>(indices: map<string, seq<D>>, index: string, docs: seq<D>): map<string, seq<D>>
    decreases |docs|
  {
    if docs == [] then indices
    else AppendedOneByOne(Appended(indices, index, [docs[0]]), index, docs[1..])
  }

  /** A bulk write into one index is the same as single writes in iteration order. */
  lemma {:induction false} BulkIsOneByOne<D>(indices: map<string, seq<D>>, index: string, docs: seq<D>)
    ensures AppendedOneByOne(indices, index, docs) == Appended(indices, index, docs)
    decreases |docs|
  {
    if docs != [] {
      var once := Appended(indices, index, [docs[0]]);
      BulkIsOneByOne(once, index, docs[1..]);
      assert Documents(once, index) + docs[1..] == Documents(indices, index) + docs;
      if docs[1..] == [] {
        assert docs == [docs[0]];
      }
    }
  }

  /**
   `ElasticsearchOperations`: the index contents, written through `save`.
   */
  class Operations<D> {
    var indices: map<string, seq<D>>

    constructor (indices: map<string, seq<D>>)
      ensures this.indices == indices
    {
      this.indices := indices;
    }

    /** `save(entity, index)`: store one document in the named index. */
    method Save(entity: D, index: string) returns (saved: D)
      modifies this`indices
      ensures saved == entity
      ensures indices == Appended(old(indices), index, [entity])
    {
      indices := Appended(indices, index, [entity]);
      saved := entity;
    }

    /** `save(entities, index)`: store all documents, in iteration order, in the named index. */
    method SaveAll(entities: seq<D>, index: string) returns (saved: seq<D>)
      modifies this`indices
      ensures saved == entities
      ensures indices == Appended(old(indices), index, entities)
    {
      indices := Appended(indices, index, entities);
      saved := entities;
    }
  }

  /**
   A mapping. `createMapping()` returns a `properties` document that the library derives
   from the entity's annotations; the field-to-(type, format) shape here is a placeholder
   for that value, and no proof looks inside it.
   */
  datatype FieldMapping = FieldMapping(fieldType: string, format: string)

  type Mapping = map<string, FieldMapping>

  /** An alias action of a template: give each new matching index these aliases. */
  datatype AliasAction = Add(aliases: seq<string>)

  /** What the store keeps under a template's name. */
  datatype Template = Template(pattern: string, mappings: Mapping, aliasActions: seq<AliasAction>)

  /** A put-template request: the template's name and its content. */
  datatype PutTemplateRequest = PutTemplateRequest(name: string, pattern: string, mappings: Mapping, aliasActions: seq<AliasAction>)
  {
    function ToTemplate(): Template
    {
      Template(pattern, mappings, aliasActions)
    }
  }

  /**
   `IndexOperations` bound to the document entity: the templates in the store, the
   put-template requests issued so far, and the two values it derives from the entity
   class, its mapping and its index names.
   */
  class IndexOperations {
    var templates: map<string, Template>
    var putRequests: seq<PutTemplateRequest>
    const entityMapping: Mapping
    const entityIndexNames: seq<string>

    constructor (templates: map<string, Template>, entityMapping: Mapping, entityIndexNames: seq<string>)
      ensures this.templates == templates && this.putRequests == []
      ensures this.entityMapping == entityMapping && this.entityIndexNames == entityIndexNames
    {
      this.templates := templates;
      this.putRequests := [];
      this.entityMapping := entityMapping;
      this.entityIndexNames := entityIndexNames;
    }

    /** `existsTemplate(name)`. */
    method ExistsTemplate(name: string) returns (present: bool)
      ensures present <==> name in templates
    {
      present := name in templates;
    }

    /** `createMapping()`: the mapping derived from the entity class. */
    method CreateMapping() returns (mapping: Mapping)
      ensures mapping == entityMapping
    {
      mapping := entityMapping;
    }

    /** `getIndexCoordinates().getIndexNames()`: the index names declared on the entity class. */
    method GetIndexNames() returns (names: seq<string>)
      ensures names == entityIndexNames
    {
      names := entityIndexNames;
    }

    /** `putTemplate(request)`: store the template under its name, replacing any earlier one. */
    method PutTemplate(request: PutTemplateRequest)
      modifies this`templates, this`putRequests
      ensures templates == old(templates)[request.name := request.ToTemplate()]
      ensures putRequests == old(putRequests) + [request]
    {
      templates := templates[request.name := request.ToTemplate()];
      putRequests := putRequests + [request];
    }
  }
}
