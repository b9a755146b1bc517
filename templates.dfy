/**
 Template provisioning (`TemplateInitializer`): at startup, install the index template
 `msg-template` for the pattern `msg-*`, carrying the entity's mapping and an alias
 action that gives every new bucket index the entity's own index names as aliases,
 unless a template under that name already exists.
 */
module TemplateSetup {
  import opened Store
  import opened Glob
  import opened LocalTimes
  import MessageRepository

  const TemplateName: string := "msg-template"
  const TemplatePattern: string := "msg-*"

  /** The request `setup()` builds from the entity's mapping and index names. */
  function TemplateRequest(mapping: Mapping, indexNames: seq<string>): PutTemplateRequest
  {
    PutTemplateRequest(TemplateName, TemplatePattern, mapping, [Add(indexNames)])
  }

  /** The put-template requests `setup()` issues against a store holding `templates`. */
  function SetupRequests(templates: map<string, Template>, mapping: Mapping, indexNames: seq<string>): (rs: seq<PutTemplateRequest>)
    ensures |rs| == if TemplateName in templates then 0 else 1
    ensures forall r :: r in rs ==> r == TemplateRequest(mapping, indexNames)
  {
    if TemplateName in templates then [] else [TemplateRequest(mapping, indexNames)]
  }

  /** The templates in the store after the requests were applied in order; each put replaces its name's entry. */
  function ApplyPuts(templates: map<string, Template>, requests: seq<PutTemplateRequest>): map<string, Template>
    decreases |requests|
  {
    if requests == [] then templates
    else ApplyPuts(templates[requests[0].name := requests[0].ToTemplate()], requests[1..])
  }

  /** The templates in the store after `setup()`. */
  function AfterSetup(templates: map<string, Template>, mapping: Mapping, indexNames: seq<string>): map<string, Template>
  {
    ApplyPuts(templates, SetupRequests(templates, mapping, indexNames))
  }

  /**
   `setup()` amounts to a check-then-put: a store that already holds `msg-template` is
   left as it is; otherwise `msg-template` is added with the template built from the
   entity's mapping and index names.
   */
  lemma AfterSetupIsCheckThenPut(templates: map<string, Template>, mapping: Mapping, indexNames: seq<string>)
    ensures AfterSetup(templates, mapping, indexNames)
         == if TemplateName in templates then templates
            else templates[TemplateName := Template(TemplatePattern, mapping, [Add(indexNames)])]
  {
    var rs := SetupRequests(templates, mapping, indexNames);
    if rs != [] {
      assert rs[0] == TemplateRequest(mapping, indexNames);
      assert rs[1..] == [];
      assert ApplyPuts(templates, rs) == ApplyPuts(templates[rs[0].name := rs[0].ToTemplate()], []);
    }
  }

  /** After `setup()` the store holds a template named `msg-template`. */
  lemma SetupInstallsTemplate(templates: map<string, Template>, mapping: Mapping, indexNames: seq<string>)
    ensures TemplateName in AfterSetup(templates, mapping, indexNames)
  {
    AfterSetupIsCheckThenPut(templates, mapping, indexNames);
  }

  /** A template already stored under `msg-template` is kept as it is, whatever its content. */
  lemma SetupKeepsExisting(templates: map<string, Template>, mapping: Mapping, indexNames: seq<string>)
    requires TemplateName in templates
    ensures AfterSetup(templates, mapping, indexNames) == templates
  {
  }

  /** A newly installed template has the pattern `msg-*`, the entity's mapping and one alias action adding the entity's index names. */
  lemma InstalledTemplateContents(templates: map<string, Template>, mapping: Mapping, indexNames: seq<string>)
    requires TemplateName !in templates
    ensures TemplateName in AfterSetup(templates, mapping, indexNames)
    ensures AfterSetup(templates, mapping, indexNames)[TemplateName]
         == Template(TemplatePattern, mapping, [Add(indexNames)])
  {
    AfterSetupIsCheckThenPut(templates, mapping, indexNames);
  }

  /** Templates under any other name are neither added, removed nor changed. */
  lemma SetupChangesNoOtherTemplate(templates: map<string, Template>, mapping: Mapping, indexNames: seq<string>, name: string)
    requires name != TemplateName
    ensures name in AfterSetup(templates, mapping, indexNames) <==> name in templates
    ensures name in templates ==> AfterSetup(templates, mapping, indexNames)[name] == templates[name]
  {
    AfterSetupIsCheckThenPut(templates, mapping, indexNames);
  }

  /** A second `setup()` issues no request and changes nothing, even with a different mapping. */
  lemma SetupIdempotent(templates: map<string, Template>, mapping: Mapping, indexNames: seq<string>, mapping2: Mapping, indexNames2: seq<string>)
    ensures SetupRequests(AfterSetup(templates, mapping, indexNames), mapping2, indexNames2) == []
    ensures AfterSetup(AfterSetup(templates, mapping, indexNames), mapping2, indexNames2)
         == AfterSetup(templates, mapping, indexNames)
  {
    SetupInstallsTemplate(templates, mapping, indexNames);
  }

  /** The template pattern `msg-*` matches exactly the names that start with `msg-`. */
  lemma TemplatePatternMatchesPrefix(name: string)
    ensures Matches(TemplatePattern, name) <==> MessageRepository.IndexPrefix <= name
  {
    assert TemplatePattern == MessageRepository.IndexPrefix + [Wildcard];
    PrefixPatternMatches(MessageRepository.IndexPrefix, name);
  }

  /** Every bucket index the repository writes to falls under the template pattern. */
  lemma BucketMatchesTemplatePattern(now: LocalTime)
    ensures Matches(TemplatePattern, MessageRepository.IndexName(now))
  {
    TemplatePatternMatchesPrefix(MessageRepository.IndexName(now));
  }

  /** When `setup()` installed the template, it covers every bucket index the repository will write to. */
  lemma InstalledTemplateCoversBuckets(templates: map<string, Template>, mapping: Mapping, indexNames: seq<string>, now: LocalTime)
    requires TemplateName !in templates
    ensures TemplateName in AfterSetup(templates, mapping, indexNames)
    ensures Matches(AfterSetup(templates, mapping, indexNames)[TemplateName].pattern, MessageRepository.IndexName(now))
  {
    AfterSetupIsCheckThenPut(templates, mapping, indexNames);
    BucketMatchesTemplatePattern(now);
  }

  /**
   A template that was stored earlier under `msg-template` with another pattern is not
   reconciled: after `setup()` no bucket index falls under it.
   */
  lemma DriftedTemplateIsKept(mapping: Mapping, indexNames: seq<string>, now: LocalTime)
    ensures var drifted := map[TemplateName := Template("log-*", mapping, [])];
            !Matches(AfterSetup(drifted, mapping, indexNames)[TemplateName].pattern, MessageRepository.IndexName(now))
  {
    PrefixPatternMatches("log-", MessageRepository.IndexName(now));
    MessageRepository.IndexNameShape(now);
    assert "log-*" == "log-" + [Wildcard];
    assert MessageRepository.IndexName(now)[0] == 'm';
  }

  /** `TemplateInitializer`: provisions the template through the entity's index operations. */
  class TemplateInitializer {
    const indexOps: IndexOperations

    constructor (indexOps: IndexOperations)
      ensures this.indexOps == indexOps
    {
      this.indexOps := indexOps;
    }

    /**
     `setup()`: when no template named `msg-template` exists, put one; one request when
     it was absent, none when it was present.
     */
    method Setup()
      modifies indexOps`templates, indexOps`putRequests
      ensures indexOps.templates == AfterSetup(old(indexOps.templates), indexOps.entityMapping, indexOps.entityIndexNames)
      ensures indexOps.putRequests
           == old(indexOps.putRequests) + SetupRequests(old(indexOps.templates), indexOps.entityMapping, indexOps.entityIndexNames)
    {
      AfterSetupIsCheckThenPut(indexOps.templates, indexOps.entityMapping, indexOps.entityIndexNames);
      var present := indexOps.ExistsTemplate(TemplateName);
      if !present {
        var mapping := indexOps.CreateMapping();
        var indexNames := indexOps.GetIndexNames();
        var aliasActions := [Add(indexNames)];
        var request := PutTemplateRequest(TemplateName, TemplatePattern, mapping, aliasActions);
        indexOps.PutTemplate(request);
      }
    }
  }

  /** Running `setup()` twice leaves the store as one run does and issues no second request. */
  method SetupTwice(initializer: TemplateInitializer)
    modifies initializer.indexOps`templates, initializer.indexOps`putRequests
    ensures initializer.indexOps.templates
         == AfterSetup(old(initializer.indexOps.templates), initializer.indexOps.entityMapping, initializer.indexOps.entityIndexNames)
    ensures initializer.indexOps.putRequests
         == old(initializer.indexOps.putRequests)
          + SetupRequests(old(initializer.indexOps.templates), initializer.indexOps.entityMapping, initializer.indexOps.entityIndexNames)
  {
    initializer.Setup();
    SetupIdempotent(old(initializer.indexOps.templates), initializer.indexOps.entityMapping, initializer.indexOps.entityIndexNames,
                    initializer.indexOps.entityMapping, initializer.indexOps.entityIndexNames);
    initializer.Setup();
  }
}
