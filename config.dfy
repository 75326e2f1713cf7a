/**
 * The tunable configuration of the later versions and its merge with a
 * saved copy: defaults first, then every property the saved section has.
 */
module Config {

  datatype Option<+T> = None | Some(value: T)

  /** One section of the configuration, property name to number. */
  type Section = map<string, real>

  /** The three sections: alien, hero and fireball. */
  datatype Settings = Settings(alien: Section, hero: Section, fireball: Section)

  /** Names the sections, to speak of all three at once. */
  datatype Part = AlienPart | HeroPart | FireballPart

  /**
   * A saved configuration as already parsed: a section is `None` when the
   * saved object lacks it or holds `null` (or another falsy value) there.
   */
  datatype Saved = Saved(alien: Option<Section>, hero: Option<Section>, fireball: Option<Section>)

  /** The built-in configuration. */
  const Defaults: Settings := Settings(
    map["size" := 180.0, "rotationSpeed" := 0.01],
    map["size" := 88.0, "speed" := 0.03],
    map["size" := 16.0, "speed" := 3.0])

  function Get(s: Settings, p: Part): Section
  {
    match p
    case AlienPart => s.alien
    case HeroPart => s.hero
    case FireballPart => s.fireball
  }

  /** `savedConfig?.alien` and its siblings: nothing when there is no saved configuration. */
  function SavedPart(saved: Option<Saved>, p: Part): Option<Section>
  {
    match saved
    case None => None
    case Some(sv) =>
      match p
      case AlienPart => sv.alien
      case HeroPart => sv.hero
      case FireballPart => sv.fireball
  }

  /** Every property the game reads is present. */
  predicate Complete(s: Settings)
  {
    && "size" in s.alien && "rotationSpeed" in s.alien
    && "size" in s.hero && "speed" in s.hero
    && "size" in s.fireball && "speed" in s.fireball
  }

  /**
   * `{ ...defaults, ...(saved || {}) }`: a property the saved section has
   * overrides the default, every other default is kept.
   */
  function MergeSection(defaults: Section, saved: Option<Section>): (r: Section)
    ensures r.Keys == defaults.Keys + (if saved.Some? then saved.value.Keys else {})
    ensures forall k :: k in r ==> r[k] == (if saved.Some? && k in saved.value then saved.value[k] else defaults[k])
  {
    match saved
    case None => defaults
    case Some(s) => defaults + s
  }

  /** The configuration the constructor builds from a saved one. */
  function Merge(saved: Option<Saved>): (s: Settings)
    ensures forall p :: Get(s, p) == MergeSection(Get(Defaults, p), SavedPart(saved, p))
    ensures Complete(s)
    // no saved configuration, or one without sections, gives exactly the defaults
    ensures saved.None? || saved == Some(Saved(None, None, None)) ==> s == Defaults
  {
    Settings(
      MergeSection(Defaults.alien, SavedPart(saved, AlienPart)),
      MergeSection(Defaults.hero, SavedPart(saved, HeroPart)),
      MergeSection(Defaults.fireball, SavedPart(saved, FireballPart)))
  }

  /** A saved section that contributes nothing: missing, or an empty object. */
  predicate Blank(section: Option<Section>)
  {
    section.None? || section == Some(map[])
  }

  /**
   * A saved configuration whose sections are each missing or an empty
   * object, in any mix, also gives exactly the defaults.
   */
  lemma BlankSectionsGiveDefaults(sv: Saved)
    requires Blank(sv.alien) && Blank(sv.hero) && Blank(sv.fireball)
    ensures Merge(Some(sv)) == Defaults
  {
    var empty: Section := map[];
    assert Defaults.alien + empty == Defaults.alien;
    assert Defaults.hero + empty == Defaults.hero;
    assert Defaults.fireball + empty == Defaults.fireball;
  }
}
