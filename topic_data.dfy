/**
 * The topic catalog of src/utils/topic_data.py: one constant list, its
 * eleven category slices and a random sample of it.
 */
module TopicData {
  import opened Wrappers
  import Sampling
  import Seqs

  // The list literal, in the blocks its comments delimit.

  const AiFundamentals: seq<string> := [
    "Machine learning fundamentals", "Neural network architectures", "Natural language processing",
    "Computer vision advancements", "Reinforcement learning techniques", "AI ethics frameworks",
    "Deep learning innovations", "AI research frontiers", "Generative AI evolution",
    "Multimodal AI systems", "AI alignment strategies", "AGI development pathways",
    "Foundation model architectures", "AI interpretability methods", "Explainable AI techniques",
    "AI augmentation approaches", "Human-AI collaboration", "Federated learning advances",
    "AI training methodologies", "Transformer architecture innovations"
  ]

  const FutureComputing: seq<string> := [
    "Quantum computing advances", "Cloud computing evolution", "Edge computing applications",
    "Neuromorphic computing", "Blockchain technologies", "Decentralized networks",
    "Web3 infrastructure", "Green computing innovations", "High-performance computing",
    "Serverless architectures", "Spatial computing systems", "Advanced cybersecurity frameworks",
    "Distributed systems design", "Mesh network technologies", "6G communication systems",
    "Computing sustainability", "Infrastructure optimization", "Computational efficiency",
    "Exascale computing challenges", "Zero-trust architectures"
  ]

  const DigitalTransformation: seq<string> := [
    "Industry 4.0 implementation", "Digital twin technology", "Business AI integration",
    "IoT enterprise solutions", "RPA and business automation", "Digital innovation strategies",
    "API economy evolution", "Platform business models", "Hyper-personalization techniques",
    "Data-driven decision making", "Digital marketing transformation", "Customer experience technologies",
    "Digital employee experience", "Virtual collaboration tools", "Enterprise knowledge systems",
    "Organizational AI adoption", "Digital leadership development", "Change management for technology",
    "Digital ecosystem building", "Technology governance frameworks"
  ]

  const EmergingTrends: seq<string> := [
    "Extended reality (XR) evolution", "Metaverse development", "Spatial computing applications",
    "Brain-computer interfaces", "Synthetic biology advances", "Nanotechnology innovations",
    "Advanced robotics systems", "Autonomous vehicle technologies", "Smart city infrastructures",
    "Sustainable technology solutions", "Space technology commercialization", "Precision medicine technologies",
    "Advanced materials science", "Biotechnology convergence", "Energy storage breakthroughs",
    "Sensory augmentation devices", "Human enhancement technologies", "Carbon capture innovations",
    "Vertical farming technologies", "Alternative protein technologies"
  ]

  const DataScience: seq<string> := [
    "Big data architectures", "Data engineering pipelines", "Predictive analytics models",
    "Real-time analytics systems", "Data visualization techniques", "Natural language querying",
    "Automated machine learning", "Data mesh architecture", "Decision intelligence frameworks",
    "Synthetic data generation", "Data governance strategies", "Time-series analysis methods",
    "Geospatial analytics", "Graph database applications", "Behavioral analytics systems",
    "Prescriptive analytics models", "Analytics democratization", "MLOps best practices",
    "Data storytelling techniques", "Knowledge graph applications"
  ]

  const DigitalSociety: seq<string> := [
    "Remote work evolution", "Digital nomad infrastructure", "Future skills development",
    "AI-human workforce integration", "Digital inclusion strategies", "Technology education transformation",
    "Universal basic income models", "Platform cooperative systems", "Digital public goods",
    "Creator economy platforms", "Digital identity frameworks", "Online community building",
    "Digital citizenship development", "Virtual learning environments", "Work automation adaptation",
    "Knowledge worker augmentation", "Gig economy platforms", "Digital wellness practices",
    "Technological unemployment solutions", "Human-centered technology design"
  ]

  const Immersive: seq<string> := [
    "Virtual reality innovations", "Augmented reality platforms", "Mixed reality development",
    "Spatial audio technologies", "Haptic feedback systems", "Volumetric capture methods",
    "Digital twin environments", "Immersive storytelling techniques", "Metaverse ecosystems",
    "Avatar technology development", "Social VR platforms", "Extended reality interfaces",
    "Immersive learning environments", "Spatial computing applications", "Virtual production techniques",
    "Augmented workplace solutions", "Immersive collaboration tools", "Digital fashion innovations",
    "Virtual architecture design", "Synthetic media creation"
  ]

  const DigitalEthics: seq<string> := [
    "AI ethics frameworks", "Algorithmic bias mitigation", "Digital privacy protection",
    "Cybersecurity resilience", "Ethical data collection", "Digital rights frameworks",
    "Technology governance models", "Misinformation countermeasures", "Quantum cryptography",
    "Zero-knowledge protocols", "Secure multiparty computation", "Ethical design practices",
    "Trust frameworks for technology", "Explainable AI methods", "Digital well-being strategies",
    "Data sovereignty principles", "Responsible innovation frameworks", "Technology impact assessment",
    "Digital inclusion practices", "Sustainable technology development"
  ]

  const InternetEvolution: seq<string> := [
    "Web3 infrastructure development", "Decentralized web protocols", "IoT network architectures",
    "5G & 6G applications", "Mesh network innovations", "Network virtualization",
    "Low-orbit satellite networks", "Edge intelligence systems", "Distributed ledger technologies",
    "Interoperability frameworks", "Protocol innovation", "Content delivery evolution",
    "Semantic web technologies", "Ambient connectivity", "Machine-to-machine communication",
    "Network security architectures", "Digital infrastructure resilience", "Information discovery systems",
    "Personal area networks", "Ultra-wideband applications"
  ]

  const HumanTech: seq<string> := [
    "Conversational interface design", "Ambient computing systems", "Gesture recognition technologies",
    "Voice computing advances", "Brain-computer interfaces", "Affective computing methods",
    "Wearable technology evolution", "Ambient intelligence environments", "Human-centered AI design",
    "Digital twin interfaces", "Multimodal interaction systems", "Adaptive interfaces",
    "Spatial computing interaction", "Zero UI approaches", "Human augmentation interfaces",
    "Smart environment interaction", "Inclusive design methodologies", "Cognitive load optimization",
    "Tangible computing interfaces", "Multisensory digital experiences"
  ]

  const ExtraTrends: seq<string> := [
    "Digital sustainability practices", "Synthetic media evolution", "Low-code/no-code platforms",
    "FinTech infrastructure innovations", "Circular economy technologies", "Smart contract applications",
    "Regenerative technology approaches", "Computational creativity", "Personalized manufacturing",
    "Open source infrastructure", "Digital commons development", "Cross-reality systems",
    "Biodigital convergence", "Autonomous systems governance", "Technology sovereignty frameworks"
  ]

  /** `SELF_IMPROVEMENT_TOPICS`, in list order (215 entries, some repeated). */
  const Catalog: seq<string> :=
    AiFundamentals + FutureComputing + DigitalTransformation + EmergingTrends
    + DataScience + DigitalSociety + Immersive + DigitalEthics
    + InternetEvolution + HumanTech + ExtraTrends

  /** `get_all_topics()`: the catalog list itself. */
  function AllTopics(): (r: seq<string>)
    ensures |r| == 215
    ensures forall i :: 0 <= i < |r| ==> r[i] == Catalog[i]
  {
    Catalog
  }

  /** The dictionary keys of `get_topics_by_category`, in insertion order. */
  const CategoryNames: seq<string> := [
    "AI Fundamentals & Development",
    "Future Computing & Infrastructure",
    "Digital Transformation & Business",
    "Emerging Technology Trends",
    "Data Science & Analytics",
    "Digital Society & Future Work",
    "Immersive Technologies",
    "Digital Ethics & Security",
    "Internet Evolution & Networks",
    "Human-Tech Interaction",
    "Extra Technology Trends"
  ]

  /** A slice bound as Python clamps it to a list of length `len`. */
  function Clamp(i: nat, len: nat): nat
  {
    if i <= len then i else len
  }

  /** Category `k`'s slice: `[20k:20k+20]` for the first ten, `[200:]` for the last. */
  function CategorySlice(topics: seq<string>, k: nat): seq<string>
    requires k < 11
  {
    if k < 10 then topics[Clamp(20 * k, |topics|)..Clamp(20 * k + 20, |topics|)]
    else topics[Clamp(200, |topics|)..]
  }

  /** `get_topics_by_category` over a given list: (name, slice) pairs in key order. */
  function SliceByCategory(topics: seq<string>): (r: seq<(string, seq<string>)>)
    ensures |r| == 11
  {
    seq(11, k requires 0 <= k < 11 => (CategoryNames[k], CategorySlice(topics, k)))
  }

  /** `get_topics_by_category()` */
  function TopicsByCategory(): seq<(string, seq<string>)>
  {
    SliceByCategory(Catalog)
  }

  /** The slices of the first `n` categories, concatenated in key order. */
  function Concat(groups: seq<(string, seq<string>)>): seq<string>
  {
    if groups == [] then [] else Concat(groups[..|groups| - 1]) + groups[|groups| - 1].1
  }

  /** The first `k` slices (k <= 10) cover exactly the first min(20k, len) entries. */
  lemma {:induction false} PrefixSlices(topics: seq<string>, k: nat)
    requires k <= 10
    ensures Concat(SliceByCategory(topics)[..k]) == topics[..Clamp(20 * k, |topics|)]
  {
    var g := SliceByCategory(topics);
    if k > 0 {
      PrefixSlices(topics, k - 1);
      var lo, hi := Clamp(20 * (k - 1), |topics|), Clamp(20 * k, |topics|);
      var gk := g[..k];
      assert gk[..|gk| - 1] == g[..k - 1];
      assert gk[|gk| - 1].1 == topics[lo..hi];
      assert Concat(gk) == Concat(g[..k - 1]) + topics[lo..hi];
      Seqs.AdjacentSlices(topics, lo, hi);
    } else {
      assert g[..0] == [];
    }
  }

  /**
   * The eleven slices partition the list: concatenated in key order they
   * give it back, with no gap and no overlap of positions.
   */
  lemma SlicesPartition(topics: seq<string>)
    ensures Concat(SliceByCategory(topics)) == topics
  {
    var g := SliceByCategory(topics);
    PrefixSlices(topics, 10);
    var m := Clamp(200, |topics|);
    calc {
      Concat(g);
      { assert g[..11] == g; }
      Concat(g[..11]);
      Concat(g[..11][..10]) + g[..11][10].1;
      { assert g[..11][..10] == g[..10]; }
      Concat(g[..10]) + g[10].1;
      topics[..m] + topics[m..];
      { assert topics[..m] + topics[m..] == topics; }
      topics;
    }
  }

  /** Category k < 10 holds min(20, max(0, len - 20k)) entries. */
  lemma CategorySizes(topics: seq<string>, k: nat)
    requires k < 10
    ensures var rest := |topics| - 20 * k;
      |SliceByCategory(topics)[k].1| == if rest <= 0 then 0 else if rest < 20 then rest else 20
  {
  }

  /**
   * Categories are disjoint by position but not by text: "Spatial computing
   * applications" is in category 3 and in category 6.
   */
  lemma RepeatedAcrossCategories()
    ensures Catalog[62] == Catalog[133] == "Spatial computing applications"
    ensures Catalog[62] in CategorySlice(Catalog, 3) && Catalog[133] in CategorySlice(Catalog, 6)
    ensures Catalog[5] == Catalog[140] == "AI ethics frameworks"
  {
    assert Catalog[62] == EmergingTrends[2];
    assert Catalog[133] == Immersive[13];
    assert Catalog[5] == AiFundamentals[5];
    assert Catalog[140] == DigitalEthics[0];
    assert CategorySlice(Catalog, 3)[2] == Catalog[62];
    assert CategorySlice(Catalog, 6)[13] == Catalog[133];
  }

  /** No entry of `s` is the empty string. */
  predicate NoEmptyEntry(s: seq<string>)
  {
    forall i :: 0 <= i < |s| ==> s[i] != ""
  }

  lemma NoEmptyAppend(a: seq<string>, b: seq<string>)
    requires NoEmptyEntry(a) && NoEmptyEntry(b)
    ensures NoEmptyEntry(a + b)
  {
    forall i | 0 <= i < |a + b| ensures (a + b)[i] != "" {
      if i >= |a| { assert (a + b)[i] == b[i - |a|]; }
    }
  }

  /** Every catalog topic is a non-empty string, so none of them is falsy. */
  lemma CatalogNonEmptyEntries(i: nat)
    requires i < |Catalog|
    ensures Catalog[i] != ""
  {
    CatalogHasNoEmptyEntry();
  }

  /** The eleven blocks have no empty entry (in three groups, to keep each proof small). */
  lemma FirstBlocksHaveNoEmptyEntry()
    ensures NoEmptyEntry(AiFundamentals) && NoEmptyEntry(FutureComputing)
    ensures NoEmptyEntry(DigitalTransformation) && NoEmptyEntry(EmergingTrends)
  {
  }

  lemma MiddleBlocksHaveNoEmptyEntry()
    ensures NoEmptyEntry(DataScience) && NoEmptyEntry(DigitalSociety)
    ensures NoEmptyEntry(Immersive) && NoEmptyEntry(DigitalEthics)
  {
  }

  lemma LastBlocksHaveNoEmptyEntry()
    ensures NoEmptyEntry(InternetEvolution) && NoEmptyEntry(HumanTech)
    ensures NoEmptyEntry(ExtraTrends)
  {
  }

  /** Hence neither has their concatenation. */
  lemma CatalogHasNoEmptyEntry()
    ensures NoEmptyEntry(Catalog)
  {
    FirstBlocksHaveNoEmptyEntry();
    MiddleBlocksHaveNoEmptyEntry();
    LastBlocksHaveNoEmptyEntry();
    var c := AiFundamentals;
    NoEmptyAppend(c, FutureComputing); c := c + FutureComputing;
    NoEmptyAppend(c, DigitalTransformation); c := c + DigitalTransformation;
    NoEmptyAppend(c, EmergingTrends); c := c + EmergingTrends;
    NoEmptyAppend(c, DataScience); c := c + DataScience;
    NoEmptyAppend(c, DigitalSociety); c := c + DigitalSociety;
    NoEmptyAppend(c, Immersive); c := c + Immersive;
    NoEmptyAppend(c, DigitalEthics); c := c + DigitalEthics;
    NoEmptyAppend(c, InternetEvolution); c := c + InternetEvolution;
    NoEmptyAppend(c, HumanTech); c := c + HumanTech;
    NoEmptyAppend(c, ExtraTrends); c := c + ExtraTrends;
    assert c == Catalog;
  }

  /**
   * `get_random_topics(n)`: `random.sample` of min(n, len) entries, taken
   * from distinct positions; a negative `n` raises.
   */
  method GetRandomTopics(n: int) returns (r: Result<seq<string>>, ghost positions: seq<nat>)
    ensures n < 0 <==> r.Failure?
    ensures r.Success? ==> |r.value| == (if n < |Catalog| then n else |Catalog|)
    ensures r.Success? ==> Sampling.DrawnFrom(r.value, positions, Catalog)
  {
    r, positions := Sampling.Sample(Catalog, if n < |Catalog| then n else |Catalog|);
  }
}
