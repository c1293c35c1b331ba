/** What Flux owns on an object, read from its managedFields
    (internal/webhook/fields.go). */
module ManagedFields {
  import opened Wrappers
  import opened JsonValues

  const KUSTOMIZE_MANAGER := "kustomize-controller"
  const HELM_MANAGER := "helm-controller"
  const APPLY_OPERATION := "Apply"

  /** The outcome of decoding one entry's fieldsV1 document. */
  datatype FieldsV1 = Absent | Malformed | Parsed(paths: PathSet)

  datatype Entry = Entry(manager: string, operation: string, fieldsV1: FieldsV1)

  /** The exact name, or the name with a version suffix. */
  predicate IsFluxFieldManager(manager: string) {
    || manager == KUSTOMIZE_MANAGER
    || manager == HELM_MANAGER
    || KUSTOMIZE_MANAGER + "/" <= manager
    || HELM_MANAGER + "/" <= manager
  }

  predicate AppliedByFlux(e: Entry) {
    e.operation == APPLY_OPERATION && IsFluxFieldManager(e.manager)
  }

  /** The union over exactly the entries Flux applied, or an error when one of those
      is malformed. */
  function FluxFields(entries: seq<Entry>): Result<PathSet> {
    if exists e | e in entries :: AppliedByFlux(e) && e.fieldsV1.Malformed? then Err
    else Ok(set e, p | e in entries && AppliedByFlux(e) && e.fieldsV1.Parsed? && p in e.fieldsV1.paths :: p)
  }

  method FluxManagedFields(entries: seq<Entry>) returns (res: Result<PathSet>)
    ensures res == FluxFields(entries)
  {
    var owned: PathSet := {};
    for i := 0 to |entries|
      invariant FluxFields(entries[..i]).Ok? && FluxFields(entries[..i]).value == owned
    {
      var e := entries[i];
      FluxFieldsAdd(entries[..i], e);
      assert entries[..i + 1] == entries[..i] + [e];
      if e.operation != APPLY_OPERATION || !IsFluxFieldManager(e.manager) || e.fieldsV1.Absent? {
        continue;
      }
      if e.fieldsV1.Malformed? {
        assert e in entries;
        return Err;
      }
      owned := owned + e.fieldsV1.paths;
    }
    assert entries[..|entries|] == entries;
    return Ok(owned);
  }

  lemma FluxFieldsAdd(entries: seq<Entry>, e: Entry)
    requires FluxFields(entries).Ok?
    ensures FluxFields(entries + [e]) ==
            if AppliedByFlux(e) && e.fieldsV1.Malformed? then Err
            else Ok(FluxFields(entries).value +
                    if AppliedByFlux(e) && e.fieldsV1.Parsed? then e.fieldsV1.paths else {})
  {
    assert forall x :: x in entries + [e] <==> x in entries || x == e;
    if AppliedByFlux(e) && e.fieldsV1.Malformed? {
      assert e in entries + [e];
    } else {
      var more := if AppliedByFlux(e) && e.fieldsV1.Parsed? then e.fieldsV1.paths else {};
      assert FluxFields(entries + [e]).Ok?;
      assert FluxFields(entries + [e]).value == FluxFields(entries).value + more;
    }
  }

  /** Neither the order of the entries, nor repetition, nor entries of other managers
      matter. */
  lemma FluxFieldsSameEntries(s: seq<Entry>, t: seq<Entry>)
    requires forall e | AppliedByFlux(e) :: e in s <==> e in t
    ensures FluxFields(s) == FluxFields(t)
  {
    if FluxFields(s).Ok? && FluxFields(t).Ok? {
      assert FluxFields(s).value == FluxFields(t).value;
    }
  }

  /** One of Flux's two appliers, by its name or its name with a version. */
  ghost predicate NamesApplier(manager: string) {
    || manager == "kustomize-controller" || (exists version :: manager == "kustomize-controller/" + version)
    || manager == "helm-controller" || (exists version :: manager == "helm-controller/" + version)
  }

  lemma PrefixedExactly(s: string, prefix: string)
    ensures prefix <= s <==> exists rest :: s == prefix + rest
  {
    if prefix <= s {
      assert s == prefix + s[|prefix|..];
    }
  }

  lemma ApplierExactly(manager: string)
    ensures IsFluxFieldManager(manager) <==> NamesApplier(manager)
  {
    assert KUSTOMIZE_MANAGER + "/" == "kustomize-controller/" && HELM_MANAGER + "/" == "helm-controller/";
    PrefixedExactly(manager, "kustomize-controller/");
    PrefixedExactly(manager, "helm-controller/");
  }

  /** Flux owns exactly the paths of the entries its appliers applied; that cannot be told
      exactly when one of those is malformed. */
  lemma FluxFieldsExactly(entries: seq<Entry>, p: Path)
    ensures FluxFields(entries).Err? <==>
            exists e | e in entries :: e.operation == "Apply" && NamesApplier(e.manager) && e.fieldsV1.Malformed?
    ensures FluxFields(entries).Ok? ==>
              (p in FluxFields(entries).value <==>
               exists e | e in entries ::
                 e.operation == "Apply" && NamesApplier(e.manager) && e.fieldsV1.Parsed? && p in e.fieldsV1.paths)
  {
    forall e: Entry ensures AppliedByFlux(e) <==> e.operation == "Apply" && NamesApplier(e.manager) {
      ApplierExactly(e.manager);
    }
  }
}
