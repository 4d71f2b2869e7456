/**
 * The node catalog of the VAST validator: for every element name, the versions it is
 * valid in, the attributes it may carry, the children it may contain and whether it
 * tolerates children the catalog does not know. The catalog is immutable data; every
 * operation on it is a lookup.
 */
module Catalog {
  import opened Wrappers

  /** VAST versions are opaque strings such as "4.2". */
  type Version = string

  /** Whether version v occurs in vs: the early-return scan every `supports` method performs. */
  function ListsVersion(vs: seq<Version>, v: Version): (r: bool)
    ensures r <==> v in vs
  {
    if vs == [] then false
    else if vs[0] == v then true
    else ListsVersion(vs[1..], v)
  }

  datatype AttributeSpec = AttributeSpec(name: string, versions: seq<Version>, required: bool, allowEmpty: bool)
  {
    function Supports(v: Version): (r: bool)
      ensures r <==> v in versions
    {
      ListsVersion(versions, v)
    }
  }

  datatype ChildSpec = ChildSpec(name: string, versions: seq<Version>, optional: bool, multiple: bool)
  {
    function Supports(v: Version): (r: bool)
      ensures r <==> v in versions
    {
      ListsVersion(versions, v)
    }
  }

  datatype NodeSpec = NodeSpec(
    name: string,
    versions: seq<Version>,
    attributes: map<string, AttributeSpec>,
    children: map<string, ChildSpec>,
    allowUnknownChildren: bool)
  {
    function Supports(v: Version): (r: bool)
      ensures r <==> v in versions
    {
      ListsVersion(versions, v)
    }
  }

  datatype Catalog = Catalog(nodes: map<string, NodeSpec>)

  /** Catalog.node: a case-sensitive lookup; an absent catalog (Go's nil) knows no node. */
  function Node(catalog: Option<Catalog>, name: string): (r: Option<NodeSpec>)
    ensures r.Some? <==> catalog.Some? && name in catalog.value.nodes
    ensures r.Some? ==> r.value == catalog.value.nodes[name]
  {
    match catalog
    case None => None
    case Some(c) => if name in c.nodes then Some(c.nodes[name]) else None
  }

  /** NodeSpec.attribute: the declared attribute of that name; an absent spec declares nothing. */
  function Attribute(spec: Option<NodeSpec>, name: string): (r: Option<AttributeSpec>)
    ensures r.Some? <==> spec.Some? && name in spec.value.attributes
    ensures r.Some? ==> r.value == spec.value.attributes[name]
  {
    match spec
    case None => None
    case Some(s) => if name in s.attributes then Some(s.attributes[name]) else None
  }

  /** NodeSpec.child: the declared child relation of that name; an absent spec declares nothing. */
  function Child(spec: Option<NodeSpec>, name: string): (r: Option<ChildSpec>)
    ensures r.Some? <==> spec.Some? && name in spec.value.children
    ensures r.Some? ==> r.value == spec.value.children[name]
  {
    match spec
    case None => None
    case Some(s) => if name in s.children then Some(s.children[name]) else None
  }

  /** The versions of vast/version.go the catalog refers to: every version from 3.0 on, and from 4.0 on. */
  const AllSupportedVersions: seq<Version> := ["3.0", "4.0", "4.1", "4.2", "4.3"]
  const Version40Plus: seq<Version> := ["4.0", "4.1", "4.2", "4.3"]

  /** A version list of the default catalog is one of the two shared lists. */
  predicate StandardVersions(vs: seq<Version>) {
    vs == AllSupportedVersions || vs == Version40Plus
  }

  /** The elements that exist only from VAST 4.0 on: impression viewability, the universal ad id and ad verification. */
  const Version40PlusNodes: set<string> := {
    "ViewableImpression", "Viewable", "NotViewable", "ViewUndetermined", "UniversalAdId",
    "AdVerifications", "Verification", "JavaScriptResource", "ExecutableResource", "VerificationParameters"
  }

  /**
   * The consistency every entry of the default catalog keeps: names agree with their keys,
   * versions come from the two shared lists, only the two extension containers tolerate
   * unknown children, no attribute may be blank, the root declares a required version
   * attribute, and the 4.0 elements are not offered to 3.0 documents.
   */
  predicate WellFormedEntry(key: string, spec: NodeSpec) {
    && spec.name == key
    && StandardVersions(spec.versions)
    && (spec.allowUnknownChildren <==> key == "Extension" || key == "CreativeExtension")
    && (forall a | a in spec.attributes ::
          spec.attributes[a].name == a && StandardVersions(spec.attributes[a].versions) && !spec.attributes[a].allowEmpty)
    && (forall c | c in spec.children ::
          spec.children[c].name == c && StandardVersions(spec.children[c].versions))
    && (key == "VAST" ==> "version" in spec.attributes && spec.attributes["version"].required)
    && (key in Version40PlusNodes ==> spec.versions == Version40Plus)
  }

  predicate WellFormedNodes(nodes: map<string, NodeSpec>) {
    forall k | k in nodes :: WellFormedEntry(k, nodes[k])
  }

  /** Every child relation declared by these entries names an entry of the default catalog. */
  predicate ChildrenResolved(nodes: map<string, NodeSpec>) {
    forall k, c | k in nodes && c in nodes[k].children :: c in DefaultNodeNames
  }

  predicate NamesCovered(names: set<string>, nodes: map<string, NodeSpec>) {
    forall n | n in names :: n in nodes
  }

  /*
   * The default catalog, validator/catalog.go:105-671. The Go map literal is written here in
   * parts, each a map display of a few consecutive entries, with the names of its entries
   * beside it; the catalog is the union of the parts. Each part is checked on its own.
   */

  // VAST to Ad: validator/catalog.go:106-130
  const DefaultNodesPart1: map<string, NodeSpec> :=
    map[
      "VAST" := NodeSpec(
        name := "VAST", versions := AllSupportedVersions,
        attributes := map[
          "version" := AttributeSpec("version", AllSupportedVersions, required := true, allowEmpty := false)
        ],
        children := map[
          "Ad" := ChildSpec("Ad", AllSupportedVersions, optional := false, multiple := true),
          "Error" := ChildSpec("Error", AllSupportedVersions, optional := true, multiple := true)
        ],
        allowUnknownChildren := false),
      "Ad" := NodeSpec(
        name := "Ad", versions := AllSupportedVersions,
        attributes := map[
          "id" := AttributeSpec("id", AllSupportedVersions, required := false, allowEmpty := false),
          "sequence" := AttributeSpec("sequence", AllSupportedVersions, required := false, allowEmpty := false),
          "conditionalAd" := AttributeSpec("conditionalAd", AllSupportedVersions, required := false, allowEmpty := false),
          "adType" := AttributeSpec("adType", AllSupportedVersions, required := false, allowEmpty := false)
        ],
        children := map[
          "InLine" := ChildSpec("InLine", AllSupportedVersions, optional := true, multiple := false),
          "Wrapper" := ChildSpec("Wrapper", AllSupportedVersions, optional := true, multiple := false)
        ],
        allowUnknownChildren := false)
    ]
  const NamesPart1: set<string> := {"VAST", "Ad"}
  lemma WellFormedPart1() ensures WellFormedNodes(DefaultNodesPart1) {}
  lemma ResolvedPart1() ensures ChildrenResolved(DefaultNodesPart1) {}
  lemma NamedPart1() ensures NamesCovered(NamesPart1, DefaultNodesPart1) {}

  // InLine: validator/catalog.go:131-151
  const DefaultNodesPart2: map<string, NodeSpec> :=
    map[
      "InLine" := NodeSpec(
        name := "InLine", versions := AllSupportedVersions,
        attributes := map[],
        children := map[
          "AdSystem" := ChildSpec("AdSystem", AllSupportedVersions, optional := false, multiple := false),
          "Error" := ChildSpec("Error", AllSupportedVersions, optional := true, multiple := true),
          "Impression" := ChildSpec("Impression", AllSupportedVersions, optional := false, multiple := true),
          "AdTitle" := ChildSpec("AdTitle", AllSupportedVersions, optional := false, multiple := false),
          "AdServingId" := ChildSpec("AdServingId", AllSupportedVersions, optional := true, multiple := false),
          "Advertiser" := ChildSpec("Advertiser", AllSupportedVersions, optional := true, multiple := false),
          "Category" := ChildSpec("Category", AllSupportedVersions, optional := true, multiple := true),
          "Description" := ChildSpec("Description", AllSupportedVersions, optional := true, multiple := false),
          "Extensions" := ChildSpec("Extensions", AllSupportedVersions, optional := true, multiple := false),
          "Pricing" := ChildSpec("Pricing", AllSupportedVersions, optional := true, multiple := false),
          "ViewableImpression" := ChildSpec("ViewableImpression", Version40Plus, optional := true, multiple := false),
          "Survey" := ChildSpec("Survey", AllSupportedVersions, optional := true, multiple := false),
          "Expires" := ChildSpec("Expires", AllSupportedVersions, optional := true, multiple := false),
          "Creatives" := ChildSpec("Creatives", AllSupportedVersions, optional := false, multiple := false),
          "AdVerifications" := ChildSpec("AdVerifications", Version40Plus, optional := true, multiple := false)
        ],
        allowUnknownChildren := false)
    ]
  const NamesPart2: set<string> := {"InLine"}
  lemma WellFormedPart2() ensures WellFormedNodes(DefaultNodesPart2) {}
  lemma ResolvedPart2() ensures ChildrenResolved(DefaultNodesPart2) {}
  lemma NamedPart2() ensures NamesCovered(NamesPart2, DefaultNodesPart2) {}

  // Wrapper: validator/catalog.go:152-172
  const DefaultNodesPart3: map<string, NodeSpec> :=
    map[
      "Wrapper" := NodeSpec(
        name := "Wrapper", versions := AllSupportedVersions,
        attributes := map[
          "followAdditionalWrappers" := AttributeSpec("followAdditionalWrappers", AllSupportedVersions, required := false, allowEmpty := false),
          "allowMultipleAds" := AttributeSpec("allowMultipleAds", AllSupportedVersions, required := false, allowEmpty := false),
          "fallbackOnNoAd" := AttributeSpec("fallbackOnNoAd", AllSupportedVersions, required := false, allowEmpty := false)
        ],
        children := map[
          "AdSystem" := ChildSpec("AdSystem", AllSupportedVersions, optional := false, multiple := false),
          "Error" := ChildSpec("Error", AllSupportedVersions, optional := true, multiple := true),
          "Impression" := ChildSpec("Impression", AllSupportedVersions, optional := false, multiple := true),
          "VASTAdTagURI" := ChildSpec("VASTAdTagURI", AllSupportedVersions, optional := false, multiple := false),
          "Extensions" := ChildSpec("Extensions", AllSupportedVersions, optional := true, multiple := false),
          "Pricing" := ChildSpec("Pricing", AllSupportedVersions, optional := true, multiple := false),
          "ViewableImpression" := ChildSpec("ViewableImpression", Version40Plus, optional := true, multiple := false),
          "Creatives" := ChildSpec("Creatives", AllSupportedVersions, optional := true, multiple := false),
          "BlockedAdCategories" := ChildSpec("BlockedAdCategories", AllSupportedVersions, optional := true, multiple := true),
          "AdVerifications" := ChildSpec("AdVerifications", Version40Plus, optional := true, multiple := false)
        ],
        allowUnknownChildren := false)
    ]
  const NamesPart3: set<string> := {"Wrapper"}
  lemma WellFormedPart3() ensures WellFormedNodes(DefaultNodesPart3) {}
  lemma ResolvedPart3() ensures ChildrenResolved(DefaultNodesPart3) {}
  lemma NamedPart3() ensures NamesCovered(NamesPart3, DefaultNodesPart3) {}

  // AdSystem: validator/catalog.go:173-179
  const DefaultNodesPart4: map<string, NodeSpec> :=
    map[
      "AdSystem" := NodeSpec(
        name := "AdSystem", versions := AllSupportedVersions,
        attributes := map[
          "version" := AttributeSpec("version", AllSupportedVersions, required := false, allowEmpty := false)
        ],
        children := map[],
        allowUnknownChildren := false)
    ]
  const NamesPart4: set<string> := {"AdSystem"}
  lemma WellFormedPart4() ensures WellFormedNodes(DefaultNodesPart4) {}
  lemma ResolvedPart4() ensures ChildrenResolved(DefaultNodesPart4) {}
  lemma NamedPart4() ensures NamesCovered(NamesPart4, DefaultNodesPart4) {}

  // Error to Impression: validator/catalog.go:180-190
  const DefaultNodesPart5: map<string, NodeSpec> :=
    map[
      "Error" := NodeSpec(
        name := "Error", versions := AllSupportedVersions,
        attributes := map[],
        children := map[],
        allowUnknownChildren := false),
      "Impression" := NodeSpec(
        name := "Impression", versions := AllSupportedVersions,
        attributes := map[
          "id" := AttributeSpec("id", AllSupportedVersions, required := false, allowEmpty := false)
        ],
        children := map[],
        allowUnknownChildren := false)
    ]
  const NamesPart5: set<string> := {"Error", "Impression"}
  lemma WellFormedPart5() ensures WellFormedNodes(DefaultNodesPart5) {}
  lemma ResolvedPart5() ensures ChildrenResolved(DefaultNodesPart5) {}
  lemma NamedPart5() ensures NamesCovered(NamesPart5, DefaultNodesPart5) {}

  // AdTitle to Advertiser: validator/catalog.go:191-202
  const DefaultNodesPart6: map<string, NodeSpec> :=
    map[
      "AdTitle" := NodeSpec(
        name := "AdTitle", versions := AllSupportedVersions,
        attributes := map[],
        children := map[],
        allowUnknownChildren := false),
      "AdServingId" := NodeSpec(
        name := "AdServingId", versions := AllSupportedVersions,
        attributes := map[],
        children := map[],
        allowUnknownChildren := false),
      "Advertiser" := NodeSpec(
        name := "Advertiser", versions := AllSupportedVersions,
        attributes := map[],
        children := map[],
        allowUnknownChildren := false)
    ]
  const NamesPart6: set<string> := {"AdTitle", "AdServingId", "Advertiser"}
  lemma WellFormedPart6() ensures WellFormedNodes(DefaultNodesPart6) {}
  lemma ResolvedPart6() ensures ChildrenResolved(DefaultNodesPart6) {}
  lemma NamedPart6() ensures NamesCovered(NamesPart6, DefaultNodesPart6) {}

  // Category to BlockedAdCategories: validator/catalog.go:203-216
  const DefaultNodesPart7: map<string, NodeSpec> :=
    map[
      "Category" := NodeSpec(
        name := "Category", versions := AllSupportedVersions,
        attributes := map[
          "authority" := AttributeSpec("authority", AllSupportedVersions, required := true, allowEmpty := false)
        ],
        children := map[],
        allowUnknownChildren := false),
      "BlockedAdCategories" := NodeSpec(
        name := "BlockedAdCategories", versions := AllSupportedVersions,
        attributes := map[
          "authority" := AttributeSpec("authority", AllSupportedVersions, required := false, allowEmpty := false)
        ],
        children := map[],
        allowUnknownChildren := false)
    ]
  const NamesPart7: set<string> := {"Category", "BlockedAdCategories"}
  lemma WellFormedPart7() ensures WellFormedNodes(DefaultNodesPart7) {}
  lemma ResolvedPart7() ensures ChildrenResolved(DefaultNodesPart7) {}
  lemma NamedPart7() ensures NamesCovered(NamesPart7, DefaultNodesPart7) {}

  // Description to Extensions: validator/catalog.go:217-234
  const DefaultNodesPart8: map<string, NodeSpec> :=
    map[
      "Description" := NodeSpec(
        name := "Description", versions := AllSupportedVersions,
        attributes := map[],
        children := map[],
        allowUnknownChildren := false),
      "Survey" := NodeSpec(
        name := "Survey", versions := AllSupportedVersions,
        attributes := map[
          "type" := AttributeSpec("type", AllSupportedVersions, required := false, allowEmpty := false)
        ],
        children := map[],
        allowUnknownChildren := false),
      "Extensions" := NodeSpec(
        name := "Extensions", versions := AllSupportedVersions,
        attributes := map[],
        children := map[
          "Extension" := ChildSpec("Extension", AllSupportedVersions, optional := true, multiple := true)
        ],
        allowUnknownChildren := false)
    ]
  const NamesPart8: set<string> := {"Description", "Survey", "Extensions"}
  lemma WellFormedPart8() ensures WellFormedNodes(DefaultNodesPart8) {}
  lemma ResolvedPart8() ensures ChildrenResolved(DefaultNodesPart8) {}
  lemma NamedPart8() ensures NamesCovered(NamesPart8, DefaultNodesPart8) {}

  // Extension to Viewable: validator/catalog.go:235-263
  const DefaultNodesPart9: map<string, NodeSpec> :=
    map[
      "Extension" := NodeSpec(
        name := "Extension", versions := AllSupportedVersions,
        attributes := map[
          "type" := AttributeSpec("type", AllSupportedVersions, required := false, allowEmpty := false)
        ],
        children := map[],
        allowUnknownChildren := true),
      "Pricing" := NodeSpec(
        name := "Pricing", versions := AllSupportedVersions,
        attributes := map[
          "model" := AttributeSpec("model", AllSupportedVersions, required := true, allowEmpty := false),
          "currency" := AttributeSpec("currency", AllSupportedVersions, required := true, allowEmpty := false)
        ],
        children := map[],
        allowUnknownChildren := false),
      "ViewableImpression" := NodeSpec(
        name := "ViewableImpression", versions := Version40Plus,
        attributes := map[],
        children := map[
          "Viewable" := ChildSpec("Viewable", Version40Plus, optional := true, multiple := true),
          "NotViewable" := ChildSpec("NotViewable", Version40Plus, optional := true, multiple := true),
          "ViewUndetermined" := ChildSpec("ViewUndetermined", Version40Plus, optional := true, multiple := true)
        ],
        allowUnknownChildren := false),
      "Viewable" := NodeSpec(
        name := "Viewable", versions := Version40Plus,
        attributes := map[],
        children := map[],
        allowUnknownChildren := false)
    ]
  const NamesPart9: set<string> := {"Extension", "Pricing", "ViewableImpression", "Viewable"}
  lemma WellFormedPart9() ensures WellFormedNodes(DefaultNodesPart9) {}
  lemma ResolvedPart9() ensures ChildrenResolved(DefaultNodesPart9) {}
  lemma NamedPart9() ensures NamesCovered(NamesPart9, DefaultNodesPart9) {}

  // NotViewable to UniversalAdId: validator/catalog.go:264-282
  const DefaultNodesPart10: map<string, NodeSpec> :=
    map[
      "NotViewable" := NodeSpec(
        name := "NotViewable", versions := Version40Plus,
        attributes := map[],
        children := map[],
        allowUnknownChildren := false),
      "ViewUndetermined" := NodeSpec(
        name := "ViewUndetermined", versions := Version40Plus,
        attributes := map[],
        children := map[],
        allowUnknownChildren := false),
      "Expires" := NodeSpec(
        name := "Expires", versions := AllSupportedVersions,
        attributes := map[],
        children := map[],
        allowUnknownChildren := false),
      "UniversalAdId" := NodeSpec(
        name := "UniversalAdId", versions := Version40Plus,
        attributes := map[
          "idRegistry" := AttributeSpec("idRegistry", Version40Plus, required := true, allowEmpty := false)
        ],
        children := map[],
        allowUnknownChildren := false)
    ]
  const NamesPart10: set<string> := {"NotViewable", "ViewUndetermined", "Expires", "UniversalAdId"}
  lemma WellFormedPart10() ensures WellFormedNodes(DefaultNodesPart10) {}
  lemma ResolvedPart10() ensures ChildrenResolved(DefaultNodesPart10) {}
  lemma NamedPart10() ensures NamesCovered(NamesPart10, DefaultNodesPart10) {}

  // AdVerifications to JavaScriptResource: validator/catalog.go:283-310
  const DefaultNodesPart11: map<string, NodeSpec> :=
    map[
      "AdVerifications" := NodeSpec(
        name := "AdVerifications", versions := Version40Plus,
        attributes := map[],
        children := map[
          "Verification" := ChildSpec("Verification", Version40Plus, optional := false, multiple := true)
        ],
        allowUnknownChildren := false),
      "Verification" := NodeSpec(
        name := "Verification", versions := Version40Plus,
        attributes := map[
          "vendor" := AttributeSpec("vendor", AllSupportedVersions, required := false, allowEmpty := false)
        ],
        children := map[
          "JavaScriptResource" := ChildSpec("JavaScriptResource", Version40Plus, optional := true, multiple := true),
          "ExecutableResource" := ChildSpec("ExecutableResource", Version40Plus, optional := true, multiple := true),
          "TrackingEvents" := ChildSpec("TrackingEvents", Version40Plus, optional := true, multiple := false),
          "VerificationParameters" := ChildSpec("VerificationParameters", Version40Plus, optional := true, multiple := false)
        ],
        allowUnknownChildren := false),
      "JavaScriptResource" := NodeSpec(
        name := "JavaScriptResource", versions := Version40Plus,
        attributes := map[
          "apiFramework" := AttributeSpec("apiFramework", AllSupportedVersions, required := false, allowEmpty := false),
          "browserOptional" := AttributeSpec("browserOptional", AllSupportedVersions, required := false, allowEmpty := false)
        ],
        children := map[],
        allowUnknownChildren := false)
    ]
  const NamesPart11: set<string> := {"AdVerifications", "Verification", "JavaScriptResource"}
  lemma WellFormedPart11() ensures WellFormedNodes(DefaultNodesPart11) {}
  lemma ResolvedPart11() ensures ChildrenResolved(DefaultNodesPart11) {}
  lemma NamedPart11() ensures NamesCovered(NamesPart11, DefaultNodesPart11) {}

  // ExecutableResource to Creatives: validator/catalog.go:311-333
  const DefaultNodesPart12: map<string, NodeSpec> :=
    map[
      "ExecutableResource" := NodeSpec(
        name := "ExecutableResource", versions := Version40Plus,
        attributes := map[
          "apiFramework" := AttributeSpec("apiFramework", AllSupportedVersions, required := false, allowEmpty := false),
          "type" := AttributeSpec("type", AllSupportedVersions, required := false, allowEmpty := false)
        ],
        children := map[],
        allowUnknownChildren := false),
      "VerificationParameters" := NodeSpec(
        name := "VerificationParameters", versions := Version40Plus,
        attributes := map[],
        children := map[],
        allowUnknownChildren := false),
      "VASTAdTagURI" := NodeSpec(
        name := "VASTAdTagURI", versions := AllSupportedVersions,
        attributes := map[],
        children := map[],
        allowUnknownChildren := false),
      "Creatives" := NodeSpec(
        name := "Creatives", versions := AllSupportedVersions,
        attributes := map[],
        children := map[
          "Creative" := ChildSpec("Creative", AllSupportedVersions, optional := false, multiple := true)
        ],
        allowUnknownChildren := false)
    ]
  const NamesPart12: set<string> := {"ExecutableResource", "VerificationParameters", "VASTAdTagURI", "Creatives"}
  lemma WellFormedPart12() ensures WellFormedNodes(DefaultNodesPart12) {}
  lemma ResolvedPart12() ensures ChildrenResolved(DefaultNodesPart12) {}
  lemma NamedPart12() ensures NamesCovered(NamesPart12, DefaultNodesPart12) {}

  // Creative: validator/catalog.go:334-350
  const DefaultNodesPart13: map<string, NodeSpec> :=
    map[
      "Creative" := NodeSpec(
        name := "Creative", versions := AllSupportedVersions,
        attributes := map[
          "id" := AttributeSpec("id", AllSupportedVersions, required := false, allowEmpty := false),
          "sequence" := AttributeSpec("sequence", AllSupportedVersions, required := false, allowEmpty := false),
          "apiFramework" := AttributeSpec("apiFramework", AllSupportedVersions, required := false, allowEmpty := false),
          "adId" := AttributeSpec("adId", AllSupportedVersions, required := false, allowEmpty := false)
        ],
        children := map[
          "Linear" := ChildSpec("Linear", AllSupportedVersions, optional := true, multiple := false),
          "NonLinearAds" := ChildSpec("NonLinearAds", AllSupportedVersions, optional := true, multiple := false),
          "CompanionAds" := ChildSpec("CompanionAds", AllSupportedVersions, optional := true, multiple := false),
          "CreativeExtensions" := ChildSpec("CreativeExtensions", AllSupportedVersions, optional := true, multiple := false),
          "UniversalAdId" := ChildSpec("UniversalAdId", Version40Plus, optional := true, multiple := true)
        ],
        allowUnknownChildren := false)
    ]
  const NamesPart13: set<string> := {"Creative"}
  lemma WellFormedPart13() ensures WellFormedNodes(DefaultNodesPart13) {}
  lemma ResolvedPart13() ensures ChildrenResolved(DefaultNodesPart13) {}
  lemma NamedPart13() ensures NamesCovered(NamesPart13, DefaultNodesPart13) {}

  // NonLinearAds: validator/catalog.go:351-358
  const DefaultNodesPart14: map<string, NodeSpec> :=
    map[
      "NonLinearAds" := NodeSpec(
        name := "NonLinearAds", versions := AllSupportedVersions,
        attributes := map[],
        children := map[
          "NonLinear" := ChildSpec("NonLinear", AllSupportedVersions, optional := false, multiple := true),
          "TrackingEvents" := ChildSpec("TrackingEvents", AllSupportedVersions, optional := true, multiple := false)
        ],
        allowUnknownChildren := false)
    ]
  const NamesPart14: set<string> := {"NonLinearAds"}
  lemma WellFormedPart14() ensures WellFormedNodes(DefaultNodesPart14) {}
  lemma ResolvedPart14() ensures ChildrenResolved(DefaultNodesPart14) {}
  lemma NamedPart14() ensures NamesCovered(NamesPart14, DefaultNodesPart14) {}

  // NonLinear: validator/catalog.go:359-381
  const DefaultNodesPart15: map<string, NodeSpec> :=
    map[
      "NonLinear" := NodeSpec(
        name := "NonLinear", versions := AllSupportedVersions,
        attributes := map[
          "id" := AttributeSpec("id", AllSupportedVersions, required := false, allowEmpty := false),
          "width" := AttributeSpec("width", AllSupportedVersions, required := true, allowEmpty := false),
          "height" := AttributeSpec("height", AllSupportedVersions, required := true, allowEmpty := false),
          "expandedWidth" := AttributeSpec("expandedWidth", AllSupportedVersions, required := false, allowEmpty := false),
          "expandedHeight" := AttributeSpec("expandedHeight", AllSupportedVersions, required := false, allowEmpty := false),
          "scalable" := AttributeSpec("scalable", AllSupportedVersions, required := false, allowEmpty := false),
          "maintainAspectRatio" := AttributeSpec("maintainAspectRatio", AllSupportedVersions, required := false, allowEmpty := false),
          "minSuggestedDuration" := AttributeSpec("minSuggestedDuration", AllSupportedVersions, required := false, allowEmpty := false),
          "apiFramework" := AttributeSpec("apiFramework", AllSupportedVersions, required := false, allowEmpty := false)
        ],
        children := map[
          "StaticResource" := ChildSpec("StaticResource", AllSupportedVersions, optional := true, multiple := false),
          "IFrameResource" := ChildSpec("IFrameResource", AllSupportedVersions, optional := true, multiple := false),
          "HTMLResource" := ChildSpec("HTMLResource", AllSupportedVersions, optional := true, multiple := false),
          "AdParameters" := ChildSpec("AdParameters", AllSupportedVersions, optional := true, multiple := false),
          "NonLinearClickTracking" := ChildSpec("NonLinearClickTracking", AllSupportedVersions, optional := true, multiple := true),
          "NonLinearClickThrough" := ChildSpec("NonLinearClickThrough", AllSupportedVersions, optional := true, multiple := false)
        ],
        allowUnknownChildren := false)
    ]
  const NamesPart15: set<string> := {"NonLinear"}
  lemma WellFormedPart15() ensures WellFormedNodes(DefaultNodesPart15) {}
  lemma ResolvedPart15() ensures ChildrenResolved(DefaultNodesPart15) {}
  lemma NamedPart15() ensures NamesCovered(NamesPart15, DefaultNodesPart15) {}

  // NonLinearClickTracking to CompanionAds: validator/catalog.go:382-399
  const DefaultNodesPart16: map<string, NodeSpec> :=
    map[
      "NonLinearClickTracking" := NodeSpec(
        name := "NonLinearClickTracking", versions := AllSupportedVersions,
        attributes := map[],
        children := map[],
        allowUnknownChildren := false),
      "NonLinearClickThrough" := NodeSpec(
        name := "NonLinearClickThrough", versions := AllSupportedVersions,
        attributes := map[],
        children := map[],
        allowUnknownChildren := false),
      "CompanionAds" := NodeSpec(
        name := "CompanionAds", versions := AllSupportedVersions,
        attributes := map[
          "required" := AttributeSpec("required", AllSupportedVersions, required := false, allowEmpty := false)
        ],
        children := map[
          "Companion" := ChildSpec("Companion", AllSupportedVersions, optional := false, multiple := true)
        ],
        allowUnknownChildren := false)
    ]
  const NamesPart16: set<string> := {"NonLinearClickTracking", "NonLinearClickThrough", "CompanionAds"}
  lemma WellFormedPart16() ensures WellFormedNodes(DefaultNodesPart16) {}
  lemma ResolvedPart16() ensures ChildrenResolved(DefaultNodesPart16) {}
  lemma NamedPart16() ensures NamesCovered(NamesPart16, DefaultNodesPart16) {}

  // Companion: validator/catalog.go:400-427
  const DefaultNodesPart17: map<string, NodeSpec> :=
    map[
      "Companion" := NodeSpec(
        name := "Companion", versions := AllSupportedVersions,
        attributes := map[
          "id" := AttributeSpec("id", AllSupportedVersions, required := false, allowEmpty := false),
          "width" := AttributeSpec("width", AllSupportedVersions, required := true, allowEmpty := false),
          "height" := AttributeSpec("height", AllSupportedVersions, required := true, allowEmpty := false),
          "assetWidth" := AttributeSpec("assetWidth", AllSupportedVersions, required := false, allowEmpty := false),
          "assetHeight" := AttributeSpec("assetHeight", AllSupportedVersions, required := false, allowEmpty := false),
          "expandedWidth" := AttributeSpec("expandedWidth", AllSupportedVersions, required := false, allowEmpty := false),
          "expandedHeight" := AttributeSpec("expandedHeight", AllSupportedVersions, required := false, allowEmpty := false),
          "apiFramework" := AttributeSpec("apiFramework", AllSupportedVersions, required := false, allowEmpty := false),
          "adSlotId" := AttributeSpec("adSlotId", AllSupportedVersions, required := false, allowEmpty := false),
          "pxratio" := AttributeSpec("pxratio", AllSupportedVersions, required := false, allowEmpty := false),
          "renderingMode" := AttributeSpec("renderingMode", AllSupportedVersions, required := false, allowEmpty := false)
        ],
        children := map[
          "StaticResource" := ChildSpec("StaticResource", AllSupportedVersions, optional := true, multiple := false),
          "IFrameResource" := ChildSpec("IFrameResource", AllSupportedVersions, optional := true, multiple := false),
          "HTMLResource" := ChildSpec("HTMLResource", AllSupportedVersions, optional := true, multiple := false),
          "AdParameters" := ChildSpec("AdParameters", AllSupportedVersions, optional := true, multiple := false),
          "AltText" := ChildSpec("AltText", AllSupportedVersions, optional := true, multiple := false),
          "CompanionClickThrough" := ChildSpec("CompanionClickThrough", AllSupportedVersions, optional := true, multiple := false),
          "CompanionClickTracking" := ChildSpec("CompanionClickTracking", AllSupportedVersions, optional := true, multiple := true),
          "CreativeExtensions" := ChildSpec("CreativeExtensions", AllSupportedVersions, optional := true, multiple := false),
          "TrackingEvents" := ChildSpec("TrackingEvents", AllSupportedVersions, optional := true, multiple := false)
        ],
        allowUnknownChildren := false)
    ]
  const NamesPart17: set<string> := {"Companion"}
  lemma WellFormedPart17() ensures WellFormedNodes(DefaultNodesPart17) {}
  lemma ResolvedPart17() ensures ChildrenResolved(DefaultNodesPart17) {}
  lemma NamedPart17() ensures NamesCovered(NamesPart17, DefaultNodesPart17) {}

  // CompanionClickThrough to Icons: validator/catalog.go:428-446
  const DefaultNodesPart18: map<string, NodeSpec> :=
    map[
      "CompanionClickThrough" := NodeSpec(
        name := "CompanionClickThrough", versions := AllSupportedVersions,
        attributes := map[],
        children := map[],
        allowUnknownChildren := false),
      "CompanionClickTracking" := NodeSpec(
        name := "CompanionClickTracking", versions := AllSupportedVersions,
        attributes := map[],
        children := map[],
        allowUnknownChildren := false),
      "AltText" := NodeSpec(
        name := "AltText", versions := AllSupportedVersions,
        attributes := map[],
        children := map[],
        allowUnknownChildren := false),
      "Icons" := NodeSpec(
        name := "Icons", versions := AllSupportedVersions,
        attributes := map[],
        children := map[
          "Icon" := ChildSpec("Icon", AllSupportedVersions, optional := false, multiple := true)
        ],
        allowUnknownChildren := false)
    ]
  const NamesPart18: set<string> := {"CompanionClickThrough", "CompanionClickTracking", "AltText", "Icons"}
  lemma WellFormedPart18() ensures WellFormedNodes(DefaultNodesPart18) {}
  lemma ResolvedPart18() ensures ChildrenResolved(DefaultNodesPart18) {}
  lemma NamedPart18() ensures NamesCovered(NamesPart18, DefaultNodesPart18) {}

  // Icon: validator/catalog.go:447-468
  const DefaultNodesPart19: map<string, NodeSpec> :=
    map[
      "Icon" := NodeSpec(
        name := "Icon", versions := AllSupportedVersions,
        attributes := map[
          "program" := AttributeSpec("program", AllSupportedVersions, required := false, allowEmpty := false),
          "width" := AttributeSpec("width", AllSupportedVersions, required := false, allowEmpty := false),
          "height" := AttributeSpec("height", AllSupportedVersions, required := false, allowEmpty := false),
          "xPosition" := AttributeSpec("xPosition", AllSupportedVersions, required := false, allowEmpty := false),
          "yPosition" := AttributeSpec("yPosition", AllSupportedVersions, required := false, allowEmpty := false),
          "duration" := AttributeSpec("duration", AllSupportedVersions, required := false, allowEmpty := false),
          "offset" := AttributeSpec("offset", AllSupportedVersions, required := false, allowEmpty := false),
          "apiFramework" := AttributeSpec("apiFramework", AllSupportedVersions, required := false, allowEmpty := false),
          "pxratio" := AttributeSpec("pxratio", AllSupportedVersions, required := false, allowEmpty := false)
        ],
        children := map[
          "StaticResource" := ChildSpec("StaticResource", AllSupportedVersions, optional := true, multiple := false),
          "IFrameResource" := ChildSpec("IFrameResource", AllSupportedVersions, optional := true, multiple := false),
          "HTMLResource" := ChildSpec("HTMLResource", AllSupportedVersions, optional := true, multiple := false),
          "IconClicks" := ChildSpec("IconClicks", AllSupportedVersions, optional := true, multiple := false),
          "IconViewTracking" := ChildSpec("IconViewTracking", AllSupportedVersions, optional := true, multiple := true)
        ],
        allowUnknownChildren := false)
    ]
  const NamesPart19: set<string> := {"Icon"}
  lemma WellFormedPart19() ensures WellFormedNodes(DefaultNodesPart19) {}
  lemma ResolvedPart19() ensures ChildrenResolved(DefaultNodesPart19) {}
  lemma NamedPart19() ensures NamesCovered(NamesPart19, DefaultNodesPart19) {}

  // IconClicks to IconClickThrough: validator/catalog.go:469-481
  const DefaultNodesPart20: map<string, NodeSpec> :=
    map[
      "IconClicks" := NodeSpec(
        name := "IconClicks", versions := AllSupportedVersions,
        attributes := map[],
        children := map[
          "IconClickFallbackImages" := ChildSpec("IconClickFallbackImages", AllSupportedVersions, optional := true, multiple := false),
          "IconClickThrough" := ChildSpec("IconClickThrough", AllSupportedVersions, optional := true, multiple := false),
          "IconClickTracking" := ChildSpec("IconClickTracking", AllSupportedVersions, optional := true, multiple := true)
        ],
        allowUnknownChildren := false),
      "IconClickThrough" := NodeSpec(
        name := "IconClickThrough", versions := AllSupportedVersions,
        attributes := map[],
        children := map[],
        allowUnknownChildren := false)
    ]
  const NamesPart20: set<string> := {"IconClicks", "IconClickThrough"}
  lemma WellFormedPart20() ensures WellFormedNodes(DefaultNodesPart20) {}
  lemma ResolvedPart20() ensures ChildrenResolved(DefaultNodesPart20) {}
  lemma NamedPart20() ensures NamesCovered(NamesPart20, DefaultNodesPart20) {}

  // IconClickTracking to IconClickFallbackImages: validator/catalog.go:482-492
  const DefaultNodesPart21: map<string, NodeSpec> :=
    map[
      "IconClickTracking" := NodeSpec(
        name := "IconClickTracking", versions := AllSupportedVersions,
        attributes := map[],
        children := map[],
        allowUnknownChildren := false),
      "IconClickFallbackImages" := NodeSpec(
        name := "IconClickFallbackImages", versions := AllSupportedVersions,
        attributes := map[],
        children := map[
          "IconClickFallbackImage" := ChildSpec("IconClickFallbackImage", AllSupportedVersions, optional := false, multiple := true)
        ],
        allowUnknownChildren := false)
    ]
  const NamesPart21: set<string> := {"IconClickTracking", "IconClickFallbackImages"}
  lemma WellFormedPart21() ensures WellFormedNodes(DefaultNodesPart21) {}
  lemma ResolvedPart21() ensures ChildrenResolved(DefaultNodesPart21) {}
  lemma NamedPart21() ensures NamesCovered(NamesPart21, DefaultNodesPart21) {}

  // IconClickFallbackImage to IconViewTracking: validator/catalog.go:493-508
  const DefaultNodesPart22: map<string, NodeSpec> :=
    map[
      "IconClickFallbackImage" := NodeSpec(
        name := "IconClickFallbackImage", versions := AllSupportedVersions,
        attributes := map[
          "width" := AttributeSpec("width", AllSupportedVersions, required := false, allowEmpty := false),
          "height" := AttributeSpec("height", AllSupportedVersions, required := false, allowEmpty := false)
        ],
        children := map[
          "AltText" := ChildSpec("AltText", AllSupportedVersions, optional := true, multiple := false),
          "StaticResource" := ChildSpec("StaticResource", AllSupportedVersions, optional := true, multiple := false)
        ],
        allowUnknownChildren := false),
      "IconViewTracking" := NodeSpec(
        name := "IconViewTracking", versions := AllSupportedVersions,
        attributes := map[],
        children := map[],
        allowUnknownChildren := false)
    ]
  const NamesPart22: set<string> := {"IconClickFallbackImage", "IconViewTracking"}
  lemma WellFormedPart22() ensures WellFormedNodes(DefaultNodesPart22) {}
  lemma ResolvedPart22() ensures ChildrenResolved(DefaultNodesPart22) {}
  lemma NamedPart22() ensures NamesCovered(NamesPart22, DefaultNodesPart22) {}

  // CreativeExtensions to CreativeExtension: validator/catalog.go:509-523
  const DefaultNodesPart23: map<string, NodeSpec> :=
    map[
      "CreativeExtensions" := NodeSpec(
        name := "CreativeExtensions", versions := AllSupportedVersions,
        attributes := map[],
        children := map[
          "CreativeExtension" := ChildSpec("CreativeExtension", AllSupportedVersions, optional := false, multiple := true)
        ],
        allowUnknownChildren := false),
      "CreativeExtension" := NodeSpec(
        name := "CreativeExtension", versions := AllSupportedVersions,
        attributes := map[
          "type" := AttributeSpec("type", AllSupportedVersions, required := false, allowEmpty := false)
        ],
        children := map[],
        allowUnknownChildren := true)
    ]
  const NamesPart23: set<string> := {"CreativeExtensions", "CreativeExtension"}
  lemma WellFormedPart23() ensures WellFormedNodes(DefaultNodesPart23) {}
  lemma ResolvedPart23() ensures ChildrenResolved(DefaultNodesPart23) {}
  lemma NamedPart23() ensures NamesCovered(NamesPart23, DefaultNodesPart23) {}

  // StaticResource to IFrameResource: validator/catalog.go:524-538
  const DefaultNodesPart24: map<string, NodeSpec> :=
    map[
      "StaticResource" := NodeSpec(
        name := "StaticResource", versions := AllSupportedVersions,
        attributes := map[
          "creativeType" := AttributeSpec("creativeType", AllSupportedVersions, required := false, allowEmpty := false)
        ],
        children := map[],
        allowUnknownChildren := false),
      "HTMLResource" := NodeSpec(
        name := "HTMLResource", versions := AllSupportedVersions,
        attributes := map[],
        children := map[],
        allowUnknownChildren := false),
      "IFrameResource" := NodeSpec(
        name := "IFrameResource", versions := AllSupportedVersions,
        attributes := map[],
        children := map[],
        allowUnknownChildren := false)
    ]
  const NamesPart24: set<string> := {"StaticResource", "HTMLResource", "IFrameResource"}
  lemma WellFormedPart24() ensures WellFormedNodes(DefaultNodesPart24) {}
  lemma ResolvedPart24() ensures ChildrenResolved(DefaultNodesPart24) {}
  lemma NamedPart24() ensures NamesCovered(NamesPart24, DefaultNodesPart24) {}

  // Linear to Duration: validator/catalog.go:539-564
  const DefaultNodesPart25: map<string, NodeSpec> :=
    map[
      "Linear" := NodeSpec(
        name := "Linear", versions := AllSupportedVersions,
        attributes := map[
          "skipoffset" := AttributeSpec("skipoffset", AllSupportedVersions, required := false, allowEmpty := false)
        ],
        children := map[
          "Icons" := ChildSpec("Icons", AllSupportedVersions, optional := true, multiple := false),
          "AdParameters" := ChildSpec("AdParameters", AllSupportedVersions, optional := true, multiple := false),
          "Duration" := ChildSpec("Duration", AllSupportedVersions, optional := false, multiple := false),
          "MediaFiles" := ChildSpec("MediaFiles", AllSupportedVersions, optional := false, multiple := false),
          "VideoClicks" := ChildSpec("VideoClicks", AllSupportedVersions, optional := true, multiple := false),
          "TrackingEvents" := ChildSpec("TrackingEvents", AllSupportedVersions, optional := true, multiple := false)
        ],
        allowUnknownChildren := false),
      "AdParameters" := NodeSpec(
        name := "AdParameters", versions := AllSupportedVersions,
        attributes := map[
          "xmlEncoded" := AttributeSpec("xmlEncoded", AllSupportedVersions, required := false, allowEmpty := false)
        ],
        children := map[],
        allowUnknownChildren := false),
      "Duration" := NodeSpec(
        name := "Duration", versions := AllSupportedVersions,
        attributes := map[],
        children := map[],
        allowUnknownChildren := false)
    ]
  const NamesPart25: set<string> := {"Linear", "AdParameters", "Duration"}
  lemma WellFormedPart25() ensures WellFormedNodes(DefaultNodesPart25) {}
  lemma ResolvedPart25() ensures ChildrenResolved(DefaultNodesPart25) {}
  lemma NamedPart25() ensures NamesCovered(NamesPart25, DefaultNodesPart25) {}

  // MediaFiles to MediaFile: validator/catalog.go:565-594
  const DefaultNodesPart26: map<string, NodeSpec> :=
    map[
      "MediaFiles" := NodeSpec(
        name := "MediaFiles", versions := AllSupportedVersions,
        attributes := map[],
        children := map[
          "MediaFile" := ChildSpec("MediaFile", AllSupportedVersions, optional := false, multiple := true),
          "ClosedCaptionFiles" := ChildSpec("ClosedCaptionFiles", AllSupportedVersions, optional := true, multiple := false),
          "Mezzanine" := ChildSpec("Mezzanine", AllSupportedVersions, optional := true, multiple := true),
          "InteractiveCreativeFile" := ChildSpec("InteractiveCreativeFile", AllSupportedVersions, optional := true, multiple := true)
        ],
        allowUnknownChildren := false),
      "MediaFile" := NodeSpec(
        name := "MediaFile", versions := AllSupportedVersions,
        attributes := map[
          "id" := AttributeSpec("id", AllSupportedVersions, required := false, allowEmpty := false),
          "delivery" := AttributeSpec("delivery", AllSupportedVersions, required := true, allowEmpty := false),
          "type" := AttributeSpec("type", AllSupportedVersions, required := true, allowEmpty := false),
          "width" := AttributeSpec("width", AllSupportedVersions, required := true, allowEmpty := false),
          "height" := AttributeSpec("height", AllSupportedVersions, required := true, allowEmpty := false),
          "codec" := AttributeSpec("codec", AllSupportedVersions, required := false, allowEmpty := false),
          "bitrate" := AttributeSpec("bitrate", AllSupportedVersions, required := false, allowEmpty := false),
          "minBitrate" := AttributeSpec("minBitrate", AllSupportedVersions, required := false, allowEmpty := false),
          "maxBitrate" := AttributeSpec("maxBitrate", AllSupportedVersions, required := false, allowEmpty := false),
          "scalable" := AttributeSpec("scalable", AllSupportedVersions, required := false, allowEmpty := false),
          "maintainAspectRatio" := AttributeSpec("maintainAspectRatio", AllSupportedVersions, required := false, allowEmpty := false),
          "fileSize" := AttributeSpec("fileSize", AllSupportedVersions, required := false, allowEmpty := false),
          "mediaType" := AttributeSpec("mediaType", AllSupportedVersions, required := false, allowEmpty := false),
          "apiFramework" := AttributeSpec("apiFramework", AllSupportedVersions, required := false, allowEmpty := false)
        ],
        children := map[],
        allowUnknownChildren := false)
    ]
  const NamesPart26: set<string> := {"MediaFiles", "MediaFile"}
  lemma WellFormedPart26() ensures WellFormedNodes(DefaultNodesPart26) {
    assert WellFormedEntry("MediaFiles", DefaultNodesPart26["MediaFiles"]);
    assert WellFormedEntry("MediaFile", DefaultNodesPart26["MediaFile"]);
  }
  lemma ResolvedPart26() ensures ChildrenResolved(DefaultNodesPart26) {}
  lemma NamedPart26() ensures NamesCovered(NamesPart26, DefaultNodesPart26) {}

  // ClosedCaptionFiles to Mezzanine: validator/catalog.go:595-622
  const DefaultNodesPart27: map<string, NodeSpec> :=
    map[
      "ClosedCaptionFiles" := NodeSpec(
        name := "ClosedCaptionFiles", versions := AllSupportedVersions,
        attributes := map[],
        children := map[
          "ClosedCaptionFile" := ChildSpec("ClosedCaptionFile", AllSupportedVersions, optional := false, multiple := true)
        ],
        allowUnknownChildren := false),
      "ClosedCaptionFile" := NodeSpec(
        name := "ClosedCaptionFile", versions := AllSupportedVersions,
        attributes := map[
          "type" := AttributeSpec("type", AllSupportedVersions, required := false, allowEmpty := false),
          "language" := AttributeSpec("language", AllSupportedVersions, required := false, allowEmpty := false)
        ],
        children := map[],
        allowUnknownChildren := false),
      "Mezzanine" := NodeSpec(
        name := "Mezzanine", versions := AllSupportedVersions,
        attributes := map[
          "delivery" := AttributeSpec("delivery", AllSupportedVersions, required := true, allowEmpty := false),
          "type" := AttributeSpec("type", AllSupportedVersions, required := true, allowEmpty := false),
          "width" := AttributeSpec("width", AllSupportedVersions, required := true, allowEmpty := false),
          "height" := AttributeSpec("height", AllSupportedVersions, required := true, allowEmpty := false),
          "codec" := AttributeSpec("codec", AllSupportedVersions, required := false, allowEmpty := false),
          "fileSize" := AttributeSpec("fileSize", AllSupportedVersions, required := false, allowEmpty := false),
          "mediaType" := AttributeSpec("mediaType", AllSupportedVersions, required := false, allowEmpty := false)
        ],
        children := map[],
        allowUnknownChildren := false)
    ]
  const NamesPart27: set<string> := {"ClosedCaptionFiles", "ClosedCaptionFile", "Mezzanine"}
  lemma WellFormedPart27() ensures WellFormedNodes(DefaultNodesPart27) {}
  lemma ResolvedPart27() ensures ChildrenResolved(DefaultNodesPart27) {}
  lemma NamedPart27() ensures NamesCovered(NamesPart27, DefaultNodesPart27) {}

  // InteractiveCreativeFile to VideoClicks: validator/catalog.go:623-640
  const DefaultNodesPart28: map<string, NodeSpec> :=
    map[
      "InteractiveCreativeFile" := NodeSpec(
        name := "InteractiveCreativeFile", versions := AllSupportedVersions,
        attributes := map[
          "type" := AttributeSpec("type", AllSupportedVersions, required := false, allowEmpty := false),
          "apiFramework" := AttributeSpec("apiFramework", AllSupportedVersions, required := false, allowEmpty := false),
          "variableDuration" := AttributeSpec("variableDuration", AllSupportedVersions, required := false, allowEmpty := false)
        ],
        children := map[],
        allowUnknownChildren := false),
      "VideoClicks" := NodeSpec(
        name := "VideoClicks", versions := AllSupportedVersions,
        attributes := map[],
        children := map[
          "ClickThrough" := ChildSpec("ClickThrough", AllSupportedVersions, optional := true, multiple := false),
          "ClickTracking" := ChildSpec("ClickTracking", AllSupportedVersions, optional := true, multiple := true),
          "CustomClick" := ChildSpec("CustomClick", AllSupportedVersions, optional := true, multiple := true)
        ],
        allowUnknownChildren := false)
    ]
  const NamesPart28: set<string> := {"InteractiveCreativeFile", "VideoClicks"}
  lemma WellFormedPart28() ensures WellFormedNodes(DefaultNodesPart28) {}
  lemma ResolvedPart28() ensures ChildrenResolved(DefaultNodesPart28) {}
  lemma NamedPart28() ensures NamesCovered(NamesPart28, DefaultNodesPart28) {}

  // ClickThrough to ClickTracking: validator/catalog.go:641-651
  const DefaultNodesPart29: map<string, NodeSpec> :=
    map[
      "ClickThrough" := NodeSpec(
        name := "ClickThrough", versions := AllSupportedVersions,
        attributes := map[
          "id" := AttributeSpec("id", AllSupportedVersions, required := false, allowEmpty := false)
        ],
        children := map[],
        allowUnknownChildren := false),
      "ClickTracking" := NodeSpec(
        name := "ClickTracking", versions := AllSupportedVersions,
        attributes := map[],
        children := map[],
        allowUnknownChildren := false)
    ]
  const NamesPart29: set<string> := {"ClickThrough", "ClickTracking"}
  lemma WellFormedPart29() ensures WellFormedNodes(DefaultNodesPart29) {}
  lemma ResolvedPart29() ensures ChildrenResolved(DefaultNodesPart29) {}
  lemma NamedPart29() ensures NamesCovered(NamesPart29, DefaultNodesPart29) {}

  // CustomClick to Tracking: validator/catalog.go:652-670
  const DefaultNodesPart30: map<string, NodeSpec> :=
    map[
      "CustomClick" := NodeSpec(
        name := "CustomClick", versions := AllSupportedVersions,
        attributes := map[],
        children := map[],
        allowUnknownChildren := false),
      "TrackingEvents" := NodeSpec(
        name := "TrackingEvents", versions := AllSupportedVersions,
        attributes := map[],
        children := map[
          "Tracking" := ChildSpec("Tracking", AllSupportedVersions, optional := false, multiple := true)
        ],
        allowUnknownChildren := false),
      "Tracking" := NodeSpec(
        name := "Tracking", versions := AllSupportedVersions,
        attributes := map[
          "event" := AttributeSpec("event", AllSupportedVersions, required := true, allowEmpty := false),
          "offset" := AttributeSpec("offset", AllSupportedVersions, required := false, allowEmpty := false)
        ],
        children := map[],
        allowUnknownChildren := false)
    ]
  const NamesPart30: set<string> := {"CustomClick", "TrackingEvents", "Tracking"}
  lemma WellFormedPart30() ensures WellFormedNodes(DefaultNodesPart30) {}
  lemma ResolvedPart30() ensures ChildrenResolved(DefaultNodesPart30) {}
  lemma NamedPart30() ensures NamesCovered(NamesPart30, DefaultNodesPart30) {}

  /** The catalog the validator uses unless it is given another one. */
  const DefaultNodes: map<string, NodeSpec> :=
    DefaultNodesPart1 + DefaultNodesPart2 + DefaultNodesPart3 + DefaultNodesPart4 +
    DefaultNodesPart5 + DefaultNodesPart6 + DefaultNodesPart7 + DefaultNodesPart8 +
    DefaultNodesPart9 + DefaultNodesPart10 + DefaultNodesPart11 + DefaultNodesPart12 +
    DefaultNodesPart13 + DefaultNodesPart14 + DefaultNodesPart15 + DefaultNodesPart16 +
    DefaultNodesPart17 + DefaultNodesPart18 + DefaultNodesPart19 + DefaultNodesPart20 +
    DefaultNodesPart21 + DefaultNodesPart22 + DefaultNodesPart23 + DefaultNodesPart24 +
    DefaultNodesPart25 + DefaultNodesPart26 + DefaultNodesPart27 + DefaultNodesPart28 +
    DefaultNodesPart29 + DefaultNodesPart30

  const DefaultCatalog: Catalog := Catalog(DefaultNodes)

  /** The names of all default entries. */
  const DefaultNodeNames: set<string> :=
    NamesPart1 + NamesPart2 + NamesPart3 + NamesPart4 + NamesPart5 + NamesPart6 + NamesPart7 +
    NamesPart8 + NamesPart9 + NamesPart10 + NamesPart11 + NamesPart12 + NamesPart13 + NamesPart14 +
    NamesPart15 + NamesPart16 + NamesPart17 + NamesPart18 + NamesPart19 + NamesPart20 +
    NamesPart21 + NamesPart22 + NamesPart23 + NamesPart24 + NamesPart25 + NamesPart26 +
    NamesPart27 + NamesPart28 + NamesPart29 + NamesPart30

  lemma WellFormedUnion(a: map<string, NodeSpec>, b: map<string, NodeSpec>)
    requires WellFormedNodes(a) && WellFormedNodes(b)
    ensures WellFormedNodes(a + b)
  {
  }

  lemma ResolvedUnion(a: map<string, NodeSpec>, b: map<string, NodeSpec>)
    requires ChildrenResolved(a) && ChildrenResolved(b)
    ensures ChildrenResolved(a + b)
  {
  }

  lemma NamesUnion(na: set<string>, nb: set<string>, a: map<string, NodeSpec>, b: map<string, NodeSpec>)
    requires NamesCovered(na, a) && NamesCovered(nb, b)
    ensures NamesCovered(na + nb, a + b)
  {
  }

  /** Every entry of the default catalog is well formed. */
  lemma DefaultCatalogWellFormed()
    ensures WellFormedNodes(DefaultCatalog.nodes)
  {
    var nodes := DefaultNodesPart1;
    WellFormedPart1();
    WellFormedPart2(); WellFormedUnion(nodes, DefaultNodesPart2); nodes := nodes + DefaultNodesPart2;
    WellFormedPart3(); WellFormedUnion(nodes, DefaultNodesPart3); nodes := nodes + DefaultNodesPart3;
    WellFormedPart4(); WellFormedUnion(nodes, DefaultNodesPart4); nodes := nodes + DefaultNodesPart4;
    WellFormedPart5(); WellFormedUnion(nodes, DefaultNodesPart5); nodes := nodes + DefaultNodesPart5;
    WellFormedPart6(); WellFormedUnion(nodes, DefaultNodesPart6); nodes := nodes + DefaultNodesPart6;
    WellFormedPart7(); WellFormedUnion(nodes, DefaultNodesPart7); nodes := nodes + DefaultNodesPart7;
    WellFormedPart8(); WellFormedUnion(nodes, DefaultNodesPart8); nodes := nodes + DefaultNodesPart8;
    WellFormedPart9(); WellFormedUnion(nodes, DefaultNodesPart9); nodes := nodes + DefaultNodesPart9;
    WellFormedPart10(); WellFormedUnion(nodes, DefaultNodesPart10); nodes := nodes + DefaultNodesPart10;
    WellFormedPart11(); WellFormedUnion(nodes, DefaultNodesPart11); nodes := nodes + DefaultNodesPart11;
    WellFormedPart12(); WellFormedUnion(nodes, DefaultNodesPart12); nodes := nodes + DefaultNodesPart12;
    WellFormedPart13(); WellFormedUnion(nodes, DefaultNodesPart13); nodes := nodes + DefaultNodesPart13;
    WellFormedPart14(); WellFormedUnion(nodes, DefaultNodesPart14); nodes := nodes + DefaultNodesPart14;
    WellFormedPart15(); WellFormedUnion(nodes, DefaultNodesPart15); nodes := nodes + DefaultNodesPart15;
    WellFormedPart16(); WellFormedUnion(nodes, DefaultNodesPart16); nodes := nodes + DefaultNodesPart16;
    WellFormedPart17(); WellFormedUnion(nodes, DefaultNodesPart17); nodes := nodes + DefaultNodesPart17;
    WellFormedPart18(); WellFormedUnion(nodes, DefaultNodesPart18); nodes := nodes + DefaultNodesPart18;
    WellFormedPart19(); WellFormedUnion(nodes, DefaultNodesPart19); nodes := nodes + DefaultNodesPart19;
    WellFormedPart20(); WellFormedUnion(nodes, DefaultNodesPart20); nodes := nodes + DefaultNodesPart20;
    WellFormedPart21(); WellFormedUnion(nodes, DefaultNodesPart21); nodes := nodes + DefaultNodesPart21;
    WellFormedPart22(); WellFormedUnion(nodes, DefaultNodesPart22); nodes := nodes + DefaultNodesPart22;
    WellFormedPart23(); WellFormedUnion(nodes, DefaultNodesPart23); nodes := nodes + DefaultNodesPart23;
    WellFormedPart24(); WellFormedUnion(nodes, DefaultNodesPart24); nodes := nodes + DefaultNodesPart24;
    WellFormedPart25(); WellFormedUnion(nodes, DefaultNodesPart25); nodes := nodes + DefaultNodesPart25;
    WellFormedPart26(); WellFormedUnion(nodes, DefaultNodesPart26); nodes := nodes + DefaultNodesPart26;
    WellFormedPart27(); WellFormedUnion(nodes, DefaultNodesPart27); nodes := nodes + DefaultNodesPart27;
    WellFormedPart28(); WellFormedUnion(nodes, DefaultNodesPart28); nodes := nodes + DefaultNodesPart28;
    WellFormedPart29(); WellFormedUnion(nodes, DefaultNodesPart29); nodes := nodes + DefaultNodesPart29;
    WellFormedPart30(); WellFormedUnion(nodes, DefaultNodesPart30); nodes := nodes + DefaultNodesPart30;
    assert nodes == DefaultNodes;
  }

  lemma DefaultChildrenResolved()
    ensures ChildrenResolved(DefaultNodes)
  {
    var nodes := DefaultNodesPart1;
    ResolvedPart1();
    ResolvedPart2(); ResolvedUnion(nodes, DefaultNodesPart2); nodes := nodes + DefaultNodesPart2;
    ResolvedPart3(); ResolvedUnion(nodes, DefaultNodesPart3); nodes := nodes + DefaultNodesPart3;
    ResolvedPart4(); ResolvedUnion(nodes, DefaultNodesPart4); nodes := nodes + DefaultNodesPart4;
    ResolvedPart5(); ResolvedUnion(nodes, DefaultNodesPart5); nodes := nodes + DefaultNodesPart5;
    ResolvedPart6(); ResolvedUnion(nodes, DefaultNodesPart6); nodes := nodes + DefaultNodesPart6;
    ResolvedPart7(); ResolvedUnion(nodes, DefaultNodesPart7); nodes := nodes + DefaultNodesPart7;
    ResolvedPart8(); ResolvedUnion(nodes, DefaultNodesPart8); nodes := nodes + DefaultNodesPart8;
    ResolvedPart9(); ResolvedUnion(nodes, DefaultNodesPart9); nodes := nodes + DefaultNodesPart9;
    ResolvedPart10(); ResolvedUnion(nodes, DefaultNodesPart10); nodes := nodes + DefaultNodesPart10;
    ResolvedPart11(); ResolvedUnion(nodes, DefaultNodesPart11); nodes := nodes + DefaultNodesPart11;
    ResolvedPart12(); ResolvedUnion(nodes, DefaultNodesPart12); nodes := nodes + DefaultNodesPart12;
    ResolvedPart13(); ResolvedUnion(nodes, DefaultNodesPart13); nodes := nodes + DefaultNodesPart13;
    ResolvedPart14(); ResolvedUnion(nodes, DefaultNodesPart14); nodes := nodes + DefaultNodesPart14;
    ResolvedPart15(); ResolvedUnion(nodes, DefaultNodesPart15); nodes := nodes + DefaultNodesPart15;
    ResolvedPart16(); ResolvedUnion(nodes, DefaultNodesPart16); nodes := nodes + DefaultNodesPart16;
    ResolvedPart17(); ResolvedUnion(nodes, DefaultNodesPart17); nodes := nodes + DefaultNodesPart17;
    ResolvedPart18(); ResolvedUnion(nodes, DefaultNodesPart18); nodes := nodes + DefaultNodesPart18;
    ResolvedPart19(); ResolvedUnion(nodes, DefaultNodesPart19); nodes := nodes + DefaultNodesPart19;
    ResolvedPart20(); ResolvedUnion(nodes, DefaultNodesPart20); nodes := nodes + DefaultNodesPart20;
    ResolvedPart21(); ResolvedUnion(nodes, DefaultNodesPart21); nodes := nodes + DefaultNodesPart21;
    ResolvedPart22(); ResolvedUnion(nodes, DefaultNodesPart22); nodes := nodes + DefaultNodesPart22;
    ResolvedPart23(); ResolvedUnion(nodes, DefaultNodesPart23); nodes := nodes + DefaultNodesPart23;
    ResolvedPart24(); ResolvedUnion(nodes, DefaultNodesPart24); nodes := nodes + DefaultNodesPart24;
    ResolvedPart25(); ResolvedUnion(nodes, DefaultNodesPart25); nodes := nodes + DefaultNodesPart25;
    ResolvedPart26(); ResolvedUnion(nodes, DefaultNodesPart26); nodes := nodes + DefaultNodesPart26;
    ResolvedPart27(); ResolvedUnion(nodes, DefaultNodesPart27); nodes := nodes + DefaultNodesPart27;
    ResolvedPart28(); ResolvedUnion(nodes, DefaultNodesPart28); nodes := nodes + DefaultNodesPart28;
    ResolvedPart29(); ResolvedUnion(nodes, DefaultNodesPart29); nodes := nodes + DefaultNodesPart29;
    ResolvedPart30(); ResolvedUnion(nodes, DefaultNodesPart30); nodes := nodes + DefaultNodesPart30;
    assert nodes == DefaultNodes;
  }

  lemma DefaultNamesCoveredByParts()
    ensures NamesCovered(
      NamesPart1 + NamesPart2 + NamesPart3 + NamesPart4 + NamesPart5 + NamesPart6 + NamesPart7 +
      NamesPart8 + NamesPart9 + NamesPart10 + NamesPart11 + NamesPart12 + NamesPart13 +
      NamesPart14 + NamesPart15 + NamesPart16 + NamesPart17 + NamesPart18 + NamesPart19 +
      NamesPart20 + NamesPart21 + NamesPart22 + NamesPart23 + NamesPart24 + NamesPart25 +
      NamesPart26 + NamesPart27 + NamesPart28 + NamesPart29 + NamesPart30,
      DefaultNodesPart1 + DefaultNodesPart2 + DefaultNodesPart3 + DefaultNodesPart4 +
      DefaultNodesPart5 + DefaultNodesPart6 + DefaultNodesPart7 + DefaultNodesPart8 +
      DefaultNodesPart9 + DefaultNodesPart10 + DefaultNodesPart11 + DefaultNodesPart12 +
      DefaultNodesPart13 + DefaultNodesPart14 + DefaultNodesPart15 + DefaultNodesPart16 +
      DefaultNodesPart17 + DefaultNodesPart18 + DefaultNodesPart19 + DefaultNodesPart20 +
      DefaultNodesPart21 + DefaultNodesPart22 + DefaultNodesPart23 + DefaultNodesPart24 +
      DefaultNodesPart25 + DefaultNodesPart26 + DefaultNodesPart27 + DefaultNodesPart28 +
      DefaultNodesPart29 + DefaultNodesPart30)
  {
    var nodes := DefaultNodesPart1;
    var names := NamesPart1;
    NamedPart1();
    NamedPart2(); NamesUnion(names, NamesPart2, nodes, DefaultNodesPart2);
    nodes := nodes + DefaultNodesPart2; names := names + NamesPart2;
    NamedPart3(); NamesUnion(names, NamesPart3, nodes, DefaultNodesPart3);
    nodes := nodes + DefaultNodesPart3; names := names + NamesPart3;
    NamedPart4(); NamesUnion(names, NamesPart4, nodes, DefaultNodesPart4);
    nodes := nodes + DefaultNodesPart4; names := names + NamesPart4;
    NamedPart5(); NamesUnion(names, NamesPart5, nodes, DefaultNodesPart5);
    nodes := nodes + DefaultNodesPart5; names := names + NamesPart5;
    NamedPart6(); NamesUnion(names, NamesPart6, nodes, DefaultNodesPart6);
    nodes := nodes + DefaultNodesPart6; names := names + NamesPart6;
    NamedPart7(); NamesUnion(names, NamesPart7, nodes, DefaultNodesPart7);
    nodes := nodes + DefaultNodesPart7; names := names + NamesPart7;
    NamedPart8(); NamesUnion(names, NamesPart8, nodes, DefaultNodesPart8);
    nodes := nodes + DefaultNodesPart8; names := names + NamesPart8;
    NamedPart9(); NamesUnion(names, NamesPart9, nodes, DefaultNodesPart9);
    nodes := nodes + DefaultNodesPart9; names := names + NamesPart9;
    NamedPart10(); NamesUnion(names, NamesPart10, nodes, DefaultNodesPart10);
    nodes := nodes + DefaultNodesPart10; names := names + NamesPart10;
    NamedPart11(); NamesUnion(names, NamesPart11, nodes, DefaultNodesPart11);
    nodes := nodes + DefaultNodesPart11; names := names + NamesPart11;
    NamedPart12(); NamesUnion(names, NamesPart12, nodes, DefaultNodesPart12);
    nodes := nodes + DefaultNodesPart12; names := names + NamesPart12;
    NamedPart13(); NamesUnion(names, NamesPart13, nodes, DefaultNodesPart13);
    nodes := nodes + DefaultNodesPart13; names := names + NamesPart13;
    NamedPart14(); NamesUnion(names, NamesPart14, nodes, DefaultNodesPart14);
    nodes := nodes + DefaultNodesPart14; names := names + NamesPart14;
    NamedPart15(); NamesUnion(names, NamesPart15, nodes, DefaultNodesPart15);
    nodes := nodes + DefaultNodesPart15; names := names + NamesPart15;
    NamedPart16(); NamesUnion(names, NamesPart16, nodes, DefaultNodesPart16);
    nodes := nodes + DefaultNodesPart16; names := names + NamesPart16;
    NamedPart17(); NamesUnion(names, NamesPart17, nodes, DefaultNodesPart17);
    nodes := nodes + DefaultNodesPart17; names := names + NamesPart17;
    NamedPart18(); NamesUnion(names, NamesPart18, nodes, DefaultNodesPart18);
    nodes := nodes + DefaultNodesPart18; names := names + NamesPart18;
    NamedPart19(); NamesUnion(names, NamesPart19, nodes, DefaultNodesPart19);
    nodes := nodes + DefaultNodesPart19; names := names + NamesPart19;
    NamedPart20(); NamesUnion(names, NamesPart20, nodes, DefaultNodesPart20);
    nodes := nodes + DefaultNodesPart20; names := names + NamesPart20;
    NamedPart21(); NamesUnion(names, NamesPart21, nodes, DefaultNodesPart21);
    nodes := nodes + DefaultNodesPart21; names := names + NamesPart21;
    NamedPart22(); NamesUnion(names, NamesPart22, nodes, DefaultNodesPart22);
    nodes := nodes + DefaultNodesPart22; names := names + NamesPart22;
    NamedPart23(); NamesUnion(names, NamesPart23, nodes, DefaultNodesPart23);
    nodes := nodes + DefaultNodesPart23; names := names + NamesPart23;
    NamedPart24(); NamesUnion(names, NamesPart24, nodes, DefaultNodesPart24);
    nodes := nodes + DefaultNodesPart24; names := names + NamesPart24;
    NamedPart25(); NamesUnion(names, NamesPart25, nodes, DefaultNodesPart25);
    nodes := nodes + DefaultNodesPart25; names := names + NamesPart25;
    NamedPart26(); NamesUnion(names, NamesPart26, nodes, DefaultNodesPart26);
    nodes := nodes + DefaultNodesPart26; names := names + NamesPart26;
    NamedPart27(); NamesUnion(names, NamesPart27, nodes, DefaultNodesPart27);
    nodes := nodes + DefaultNodesPart27; names := names + NamesPart27;
    NamedPart28(); NamesUnion(names, NamesPart28, nodes, DefaultNodesPart28);
    nodes := nodes + DefaultNodesPart28; names := names + NamesPart28;
    NamedPart29(); NamesUnion(names, NamesPart29, nodes, DefaultNodesPart29);
    nodes := nodes + DefaultNodesPart29; names := names + NamesPart29;
    NamedPart30(); NamesUnion(names, NamesPart30, nodes, DefaultNodesPart30);
    nodes := nodes + DefaultNodesPart30; names := names + NamesPart30;
  }

  /** Every name listed beside the parts is a key of the default catalog. */
  lemma DefaultNamesCovered()
    ensures NamesCovered(DefaultNodeNames, DefaultNodes)
  {
    DefaultNamesCoveredByParts();
  }

  /** Every child relation of the default catalog leads to an entry of its own. */
  lemma DefaultCatalogChildrenResolve()
    ensures forall k, c | k in DefaultCatalog.nodes && c in DefaultCatalog.nodes[k].children :: c in DefaultCatalog.nodes
  {
    DefaultChildrenResolved();
    DefaultNamesCovered();
  }

  /** The default catalog describes the root element and requires its version attribute, so validation with the defaults always finds the root's spec. */
  lemma DefaultCatalogRoot()
    ensures "VAST" in DefaultCatalog.nodes
    ensures DefaultCatalog.nodes["VAST"].name == "VAST"
    ensures "version" in DefaultCatalog.nodes["VAST"].attributes
    ensures DefaultCatalog.nodes["VAST"].attributes["version"].required
  {
    DefaultNamesCovered();
    DefaultCatalogWellFormed();
  }

  /** Properties every well-formed catalog has; the default catalog inherits them below. */
  lemma WellFormedHasNo20(nodes: map<string, NodeSpec>)
    requires WellFormedNodes(nodes)
    ensures forall k | k in nodes :: "2.0" !in nodes[k].versions
    ensures forall k, a | k in nodes && a in nodes[k].attributes :: "2.0" !in nodes[k].attributes[a].versions
    ensures forall k, c | k in nodes && c in nodes[k].children :: "2.0" !in nodes[k].children[c].versions
  {
  }

  /** No version list of the default catalog mentions VAST 2.0, at any level. */
  lemma DefaultCatalogHasNo20()
    ensures forall k | k in DefaultCatalog.nodes :: "2.0" !in DefaultCatalog.nodes[k].versions
    ensures forall k, a | k in DefaultCatalog.nodes && a in DefaultCatalog.nodes[k].attributes ::
      "2.0" !in DefaultCatalog.nodes[k].attributes[a].versions
    ensures forall k, c | k in DefaultCatalog.nodes && c in DefaultCatalog.nodes[k].children ::
      "2.0" !in DefaultCatalog.nodes[k].children[c].versions
  {
    DefaultCatalogWellFormed();
    WellFormedHasNo20(DefaultCatalog.nodes);
  }

  /** The two extension containers, and only they, accept children the catalog does not know. */
  lemma DefaultCatalogPermissiveNodes()
    ensures "Extension" in DefaultCatalog.nodes && "CreativeExtension" in DefaultCatalog.nodes
    ensures forall k | k in DefaultCatalog.nodes ::
      DefaultCatalog.nodes[k].allowUnknownChildren <==> k == "Extension" || k == "CreativeExtension"
  {
    DefaultNamesCovered();
    DefaultCatalogWellFormed();
  }

  lemma WellFormed40PlusNodes(nodes: map<string, NodeSpec>)
    requires WellFormedNodes(nodes)
    ensures forall k | k in Version40PlusNodes && k in nodes :: !nodes[k].Supports("3.0")
  {
  }

  /** The 4.0 elements are among the default names, in parts 9 to 12. */
  lemma Version40PlusNodesNamed()
    ensures Version40PlusNodes <= DefaultNodeNames
  {
    var parts := NamesPart9 + NamesPart10 + NamesPart11 + NamesPart12;
    assert Version40PlusNodes <= parts;
    assert parts <= DefaultNodeNames;
  }

  /** The viewability and verification elements are in the catalog and unknown to VAST 3.0 documents. */
  lemma DefaultCatalog40PlusNodes()
    ensures forall k | k in Version40PlusNodes :: k in DefaultCatalog.nodes && !DefaultCatalog.nodes[k].Supports("3.0")
  {
    Version40PlusNodesNamed();
    DefaultNamesCovered();
    DefaultCatalogWellFormed();
    WellFormed40PlusNodes(DefaultCatalog.nodes);
  }
}
