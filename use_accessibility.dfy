/**
  * src/hooks/useAccessibility.ts: three display flags, their toggles and reset, the root
  * classes they select, and their persistence under one `localStorage` key.
  */
module UseAccessibility {
  import opened Wrappers
  import opened Browser

  datatype Settings = Settings(highContrast: bool, largeText: bool, reduceMotion: bool)

  const StorageKey: string := "gamatec-accessibility-settings"

  const DefaultSettings: Settings := Settings(false, false, false)

  const HighContrastClass: string := "high-contrast"
  const LargeTextClass: string := "large-text"
  const ReduceMotionClass: string := "reduce-motion"

  function ToggleHighContrast(s: Settings): (t: Settings)
    ensures t.highContrast == !s.highContrast && t.largeText == s.largeText && t.reduceMotion == s.reduceMotion
  {
    s.(highContrast := !s.highContrast)
  }

  function ToggleLargeText(s: Settings): (t: Settings)
    ensures t.largeText == !s.largeText && t.highContrast == s.highContrast && t.reduceMotion == s.reduceMotion
  {
    s.(largeText := !s.largeText)
  }

  function ToggleReduceMotion(s: Settings): (t: Settings)
    ensures t.reduceMotion == !s.reduceMotion && t.highContrast == s.highContrast && t.largeText == s.largeText
  {
    s.(reduceMotion := !s.reduceMotion)
  }

  /** `resetSettings`: back to the defaults, whatever came before. */
  function ResetSettings(s: Settings): (t: Settings)
    ensures !t.highContrast && !t.largeText && !t.reduceMotion
  {
    DefaultSettings
  }

  /** Each toggle undoes itself. */
  lemma TogglesAreInvolutions(s: Settings)
    ensures ToggleHighContrast(ToggleHighContrast(s)) == s
    ensures ToggleLargeText(ToggleLargeText(s)) == s
    ensures ToggleReduceMotion(ToggleReduceMotion(s)) == s
  {
  }

  /** The toggles touch different flags, so their order does not matter. */
  lemma TogglesCommute(s: Settings)
    ensures ToggleHighContrast(ToggleLargeText(s)) == ToggleLargeText(ToggleHighContrast(s))
    ensures ToggleHighContrast(ToggleReduceMotion(s)) == ToggleReduceMotion(ToggleHighContrast(s))
    ensures ToggleLargeText(ToggleReduceMotion(s)) == ToggleReduceMotion(ToggleLargeText(s))
  {
  }

  /** Reset forgets every toggle made before it. */
  lemma ResetAfterToggles(s: Settings)
    ensures ResetSettings(ToggleHighContrast(s)) == ResetSettings(s) == DefaultSettings
    ensures ResetSettings(ToggleLargeText(s)) == DefaultSettings
    ensures ResetSettings(ToggleReduceMotion(s)) == DefaultSettings
  {
  }

  function BoolText(b: bool): string {
    if b then "true" else "false"
  }

  /** `JSON.stringify(settings)`. */
  function Encode(s: Settings): (t: string)
    ensures |t| > 0 && t[0] == '{'
  {
    "{\"highContrast\":" + BoolText(s.highContrast) + ",\"largeText\":" + BoolText(s.largeText) +
    ",\"reduceMotion\":" + BoolText(s.reduceMotion) + "}"
  }

  /** What `JSON.parse(stored)` gives: well-shaped settings, or a syntax error. */
  datatype ParseOutcome = ParsedSettings(value: Settings) | ParseFails

  /**
    * The initial state: the defaults without a window, when reading storage throws, when
    * nothing (or "") is stored, or when the stored text does not parse; the stored settings
    * otherwise.
    */
  function InitialSettings(hasWindow: bool, storageReadable: bool, stored: Option<string>, parse: string -> ParseOutcome): (s: Settings)
    ensures !hasWindow || !storageReadable ==> s == DefaultSettings
    ensures stored.None? || stored == Some("") ==> s == DefaultSettings
    ensures hasWindow && storageReadable && stored.Some? && stored.value != "" ==>
      s == match parse(stored.value) case ParsedSettings(v) => v case ParseFails => DefaultSettings
  {
    if !hasWindow || !storageReadable then DefaultSettings
    else if stored.None? || stored.value == "" then DefaultSettings
    else match parse(stored.value)
      case ParsedSettings(v) => v
      case ParseFails => DefaultSettings
  }

  /** A stored value, where `getItem` gives `null` for a missing key. */
  function Lookup(storage: map<string, string>, key: string): Option<string> {
    if key in storage then Some(storage[key]) else None
  }

  /** The root's class set after the effect: the three flag classes as the flags say, the rest kept. */
  ghost predicate ClassesMatch(classes: set<string>, before: set<string>, s: Settings) {
    (HighContrastClass in classes <==> s.highContrast) &&
    (LargeTextClass in classes <==> s.largeText) &&
    (ReduceMotionClass in classes <==> s.reduceMotion) &&
    forall c :: c != HighContrastClass && c != LargeTextClass && c != ReduceMotionClass ==>
      (c in classes <==> c in before)
  }

  /** The effect that runs whenever the settings change. */
  method ApplySettings(doc: Document, s: Settings)
    modifies doc
    ensures ClassesMatch(doc.classList, old(doc.classList), s)
    ensures doc.storage == if old(doc.storageWritable) then old(doc.storage)[StorageKey := Encode(s)] else old(doc.storage)
    ensures doc.storageWritable == old(doc.storageWritable)
  {
    if s.highContrast {
      doc.AddClass(HighContrastClass);
    } else {
      doc.RemoveClass(HighContrastClass);
    }
    if s.largeText {
      doc.AddClass(LargeTextClass);
    } else {
      doc.RemoveClass(LargeTextClass);
    }
    if s.reduceMotion {
      doc.AddClass(ReduceMotionClass);
    } else {
      doc.RemoveClass(ReduceMotionClass);
    }
    var _ := doc.SetItem(StorageKey, Encode(s));
  }

  /** Applying the effect twice with the same settings gives the same classes as once. */
  lemma ClassesMatchIdempotent(a: set<string>, b: set<string>, c: set<string>, s: Settings)
    requires ClassesMatch(b, a, s) && ClassesMatch(c, b, s)
    ensures c == b
  {
    forall x ensures x in c <==> x in b {
      if x != HighContrastClass && x != LargeTextClass && x != ReduceMotionClass {
        assert x in c <==> x in b;
      }
    }
  }

  /**
    * After the effect wrote the settings, a reload reads them back, given a `JSON.parse` that
    * reads a `JSON.stringify` result back.
    */
  lemma ReloadRestoresSettings(storage: map<string, string>, s: Settings, parse: string -> ParseOutcome)
    requires parse(Encode(s)) == ParsedSettings(s)
    ensures InitialSettings(true, true, Lookup(storage[StorageKey := Encode(s)], StorageKey), parse) == s
  {
  }
}
