/**
 * The object rewriting of cmd/apply.go: the labels stamped on every applied
 * object, the ingress-class annotation replaced on Ingress objects, and the
 * order in which manifests are streamed to the apply builder.
 */
module Apply {
  import opened Wrappers
  import opened Format

  /** A nil label or annotation map is treated as an empty one. */
  type StringMap = map<string, string>

  /**
   * `addObjectLabels`: every key of `kv` gets its `kv` value, overwriting;
   * every other label stays.
   */
  function AddObjectLabels(labels: StringMap, kv: StringMap): (r: StringMap)
    ensures r.Keys == labels.Keys + kv.Keys
    ensures forall k :: k in kv ==> r[k] == kv[k]
    ensures forall k :: k in labels && k !in kv ==> r[k] == labels[k]
  {
    labels + kv
  }

  /**
   * `replaceObjectAnnotations`: a key of `kv` is updated only when the
   * object already carries it with a non-empty value; no key is added.
   */
  function ReplaceObjectAnnotations(annotations: StringMap, kv: StringMap): (r: StringMap)
    ensures r.Keys == annotations.Keys
    ensures forall k :: k in annotations && k in kv && annotations[k] != "" ==> r[k] == kv[k]
    ensures forall k :: k in annotations && (k !in kv || annotations[k] == "") ==> r[k] == annotations[k]
  {
    map k | k in annotations :: if k in kv && annotations[k] != "" then kv[k] else annotations[k]
  }

  /** Stamping the same labels twice is stamping them once. */
  lemma AddObjectLabelsIdempotent(labels: StringMap, kv: StringMap)
    ensures AddObjectLabels(AddObjectLabels(labels, kv), kv) == AddObjectLabels(labels, kv)
  {
  }

  /** Replacing the same annotations twice is replacing them once. */
  lemma ReplaceObjectAnnotationsIdempotent(annotations: StringMap, kv: StringMap)
    ensures ReplaceObjectAnnotations(ReplaceObjectAnnotations(annotations, kv), kv) ==
            ReplaceObjectAnnotations(annotations, kv)
  {
    var once := ReplaceObjectAnnotations(annotations, kv);
    var twice := ReplaceObjectAnnotations(once, kv);
    assert twice.Keys == once.Keys;
    forall k | k in once
      ensures twice[k] == once[k]
    {
    }
  }

  /** An applied object: its kind and its metadata maps. */
  datatype Object = Object(kind: string, labels: StringMap, annotations: StringMap)

  const PartOf: string := "app.kubernetes.io/part-of"
  const ManagedBy: string := "app.kubernetes.io/managed-by"
  const VersionLabel: string := "app.kubernetes.io/version"
  const IngressClassAnnotation: string := "kubernetes.io/ingress.class"
  const ProjectName: string := "ingress-controller-conformance"

  function StandardLabels(version: string): StringMap
  {
    map[PartOf := ProjectName, ManagedBy := ProjectName, VersionLabel := version]
  }

  /**
   * What `apply` does to each decoded object: the three standard labels
   * always, and the ingress-class annotation only on an `Ingress` and only
   * when a class was given.
   */
  function Rewrite(obj: Object, version: string, ingressClass: string): (r: Object)
    ensures r.kind == obj.kind
    ensures r.labels.Keys == obj.labels.Keys + {PartOf, ManagedBy, VersionLabel}
    ensures r.labels[PartOf] == ProjectName && r.labels[ManagedBy] == ProjectName && r.labels[VersionLabel] == version
    ensures forall k :: k in obj.labels && k !in {PartOf, ManagedBy, VersionLabel} ==> r.labels[k] == obj.labels[k]
    ensures ingressClass == "" || obj.kind != "Ingress" ==> r.annotations == obj.annotations
    ensures r.annotations.Keys == obj.annotations.Keys
    ensures forall k :: k in obj.annotations && k != IngressClassAnnotation ==> r.annotations[k] == obj.annotations[k]
  {
    var labeled := obj.(labels := AddObjectLabels(obj.labels, StandardLabels(version)));
    if ingressClass != "" && obj.kind == "Ingress" then
      labeled.(annotations := ReplaceObjectAnnotations(obj.annotations, map[IngressClassAnnotation := ingressClass]))
    else labeled
  }

  /** The ingress class lands on an Ingress exactly when it already names a non-empty class. */
  lemma RewriteSetsClass(obj: Object, version: string, ingressClass: string)
    requires ingressClass != "" && obj.kind == "Ingress"
    ensures var r := Rewrite(obj, version, ingressClass);
      (IngressClassAnnotation in r.annotations && r.annotations[IngressClassAnnotation] == ingressClass) <==>
      (IngressClassAnnotation in obj.annotations && obj.annotations[IngressClassAnnotation] != "")
  {
  }

  const IngressClassStream: string := "IngressClass"

  /** The IngressClass manifest streamed when a controller is named. */
  function IngressClassManifest(apiVersion: string, controller: string): string
  {
    Sprintf("apiVersion: %v\nkind: IngressClass\nmetadata:\n  name: conformance\n  annotations:\n" +
            "    ingressclass.kubernetes.io/is-default-class: \"true\"\nspec:\n  controller: %v",
            [Str(apiVersion), Str(controller)])
  }

  /**
   * The streams handed to the builder, by name: the IngressClass manifest
   * first when a controller is named, then the packaged assets of
   * `deployments/<apiVersion>` in order; a missing asset directory is an error.
   */
  function Streams(apiVersion: string, controller: string, assetDir: string -> Result<seq<string>>): (r: Result<seq<string>>)
    ensures assetDir("deployments/" + apiVersion).Err? <==> r.Err?
    ensures r.Err? ==> r.error == Sprintf("no assets found for apiVersion %v", [Str(apiVersion)])
    ensures r.Ok? ==>
      var assets := assetDir("deployments/" + apiVersion).value;
      (controller != "" ==> r.value == [IngressClassStream] + assets) &&
      (controller == "" ==> r.value == assets)
  {
    match assetDir("deployments/" + apiVersion)
    case Err(_) => Err(Sprintf("no assets found for apiVersion %v", [Str(apiVersion)]))
    case Ok(assets) => Ok((if controller != "" then [IngressClassStream] else []) + assets)
  }

  /** The IngressClass manifest is streamed exactly when a controller is named. */
  lemma IngressClassOnlyWithController(apiVersion: string, controller: string, assetDir: string -> Result<seq<string>>)
    requires Streams(apiVersion, controller, assetDir).Ok?
    requires IngressClassStream !in assetDir("deployments/" + apiVersion).value
    ensures IngressClassStream in Streams(apiVersion, controller, assetDir).value <==> controller != ""
  {
  }
}
