/**
 * Player colour keys: normalising a stored colour name to one of the ten
 * palette keys, and looking up the display theme of a key. Theme colour
 * strings are opaque data.
 */
module PlayerColors {
  import opened MatchTypes
  import opened Text

  datatype PlayerColorKey = Blue | Red | Green | Orange | Purple | Pink | Indigo | Teal | Cyan | Amber

  /** The name of a key as stored and as used to index the theme table. */
  function KeyName(k: PlayerColorKey): string
  {
    match k
    case Blue => "blue"
    case Red => "red"
    case Green => "green"
    case Orange => "orange"
    case Purple => "purple"
    case Pink => "pink"
    case Indigo => "indigo"
    case Teal => "teal"
    case Cyan => "cyan"
    case Amber => "amber"
  }

  /** The key named exactly `name`, if it is one of the ten. */
  function KeyOfName(name: string): (r: Option<PlayerColorKey>)
    ensures r.Some? ==> KeyName(r.value) == name
    ensures r.None? ==> forall k :: KeyName(k) != name
  {
    if name == "blue" then Some(Blue)
    else if name == "red" then Some(Red)
    else if name == "green" then Some(Green)
    else if name == "orange" then Some(Orange)
    else if name == "purple" then Some(Purple)
    else if name == "pink" then Some(Pink)
    else if name == "indigo" then Some(Indigo)
    else if name == "teal" then Some(Teal)
    else if name == "cyan" then Some(Cyan)
    else if name == "amber" then Some(Amber)
    else None
  }

  /** Looking up a key's own name finds that key, so no two keys share a name. */
  lemma KeyOfNameInverts(k: PlayerColorKey)
    ensures KeyOfName(KeyName(k)) == Some(k)
  {
  }

  /** Key names are the normal form of themselves: no surrounding white space, no capitals. */
  lemma KeyNameIsNormal(k: PlayerColorKey)
    ensures TrimLower(KeyName(k)) == KeyName(k)
  {
    var n := KeyName(k);
    assert !IsWhitespace(n[0]) && !IsWhitespace(n[|n| - 1]);
    TrimOfTrimmed(n);
    ToLowerOfLower(n);
  }

  /**
   * The palette key a stored colour names: the fallback when the value is
   * missing or empty or, once trimmed and lower-cased, names none of the
   * ten keys.
   */
  function NormalizePlayerColorKey(value: Option<string>, fallback: PlayerColorKey): (r: PlayerColorKey)
    ensures value.None? || value.value == "" ==> r == fallback
    ensures value.Some? && value.value != "" ==>
              && (forall k :: KeyName(k) == TrimLower(value.value) ==> r == k)
              && ((forall k :: KeyName(k) != TrimLower(value.value)) ==> r == fallback)
  {
    if value.None? || value.value == "" then fallback
    else
      assert forall k :: KeyName(k) == TrimLower(value.value) ==> KeyOfName(TrimLower(value.value)) == Some(k) by {
        forall k | KeyName(k) == TrimLower(value.value) {
          KeyOfNameInverts(k);
        }
      }
      match KeyOfName(TrimLower(value.value))
      case Some(k) => k
      case None => fallback
  }

  /** A normalised key normalises to itself, whatever the fallback. */
  lemma NormalizeIsIdempotent(value: Option<string>, fallback: PlayerColorKey, otherFallback: PlayerColorKey)
    ensures var k := NormalizePlayerColorKey(value, fallback);
            NormalizePlayerColorKey(Some(KeyName(k)), otherFallback) == k
  {
    KeyNameIsNormal(NormalizePlayerColorKey(value, fallback));
  }

  /**
   * The lower-case names an `in` test on the theme table also finds,
   * because the table inherits them from the object prototype.
   */
  const InheritedNames: set<string> := {"constructor", "__proto__"}

  /**
   * The normalisation as written, which tests the normalised name with
   * `in` and so also accepts the inherited names; its result is a name,
   * not necessarily a palette key.
   */
  function NormalizePlayerColorKeyAsWritten(value: Option<string>, fallback: PlayerColorKey): (r: string)
    ensures KeyOfName(r).Some? || r in InheritedNames
    ensures value.None? || value.value == "" ==> r == KeyName(fallback)
  {
    if value.None? || value.value == "" then KeyName(fallback)
    else
      var name := TrimLower(value.value);
      if KeyOfName(name).Some? || name in InheritedNames then name else KeyName(fallback)
  }

  /** The written normalisation lets "constructor" through although it is not a palette key. */
  lemma AsWrittenAcceptsInheritedName()
    ensures NormalizePlayerColorKeyAsWritten(Some("constructor"), Blue) == "constructor"
    ensures KeyOfName("constructor") == None
  {
    ConstructorIsNormal();
    ConstructorIsNoKey();
    assert "constructor" in InheritedNames;
  }

  /** "constructor" is already in normal form. */
  lemma ConstructorIsNormal()
    ensures TrimLower("constructor") == "constructor"
  {
    var n := "constructor";
    assert !IsWhitespace(n[0]) && !IsWhitespace(n[|n| - 1]);
    TrimOfTrimmed(n);
    ToLowerOfLower(n);
  }

  /** No palette key is named "constructor": every key name is shorter. */
  lemma ConstructorIsNoKey()
    ensures KeyOfName("constructor") == None
  {
    assert forall k :: |KeyName(k)| <= 6;
  }

  /** Away from the inherited names the written normalisation and the corrected one agree. */
  lemma AsWrittenAgreesOnOwnNames(value: Option<string>, fallback: PlayerColorKey)
    requires value.Some? && value.value != "" ==> TrimLower(value.value) !in InheritedNames
    ensures NormalizePlayerColorKeyAsWritten(value, fallback) == KeyName(NormalizePlayerColorKey(value, fallback))
  {
  }

  /** The display theme of one palette colour. */
  datatype PlayerColorTheme = PlayerColorTheme(
    key: PlayerColorKey,
    labelText: string,
    solid: string,
    border: string,
    text: string,
    lightSurface: string,
    lightGradient: (string, string, string),
    darkGradient: (string, string, string),
    badgeLight: string,
    badgeDark: string
  )

  /** The theme table, indexed by key. */
  function ThemeOf(k: PlayerColorKey): PlayerColorTheme
  {
    match k
    case Blue => PlayerColorTheme(Blue, "Blue", "#2563EB", "#1D4ED8", "#1E3A8A", "#EFF6FF",
      ("#DBEAFE", "#EFF6FF", "#FFFFFF"),
      ("rgba(30, 58, 138, 0.52)", "rgba(88, 28, 135, 0.24)", "rgba(15, 23, 42, 0.08)"),
      "rgba(29, 78, 216, 0.12)", "rgba(147, 197, 253, 0.18)")
    case Red => PlayerColorTheme(Red, "Red", "#DC2626", "#B91C1C", "#7F1D1D", "#FEF2F2",
      ("#FEE2E2", "#FEF2F2", "#FFFFFF"),
      ("rgba(127, 29, 29, 0.5)", "rgba(88, 28, 135, 0.24)", "rgba(15, 23, 42, 0.08)"),
      "rgba(220, 38, 38, 0.12)", "rgba(252, 165, 165, 0.18)")
    case Green => PlayerColorTheme(Green, "Green", "#059669", "#047857", "#065F46", "#ECFDF5",
      ("#D1FAE5", "#ECFDF5", "#FFFFFF"),
      ("rgba(6, 95, 70, 0.5)", "rgba(16, 185, 129, 0.22)", "rgba(15, 23, 42, 0.08)"),
      "rgba(5, 150, 105, 0.12)", "rgba(110, 231, 183, 0.16)")
    case Orange => PlayerColorTheme(Orange, "Orange", "#EA580C", "#C2410C", "#9A3412", "#FFF7ED",
      ("#FFEDD5", "#FFF7ED", "#FFFFFF"),
      ("rgba(154, 52, 18, 0.55)", "rgba(249, 115, 22, 0.22)", "rgba(15, 23, 42, 0.08)"),
      "rgba(234, 88, 12, 0.12)", "rgba(253, 186, 116, 0.16)")
    case Purple => PlayerColorTheme(Purple, "Purple", "#9333EA", "#7E22CE", "#6B21A8", "#FAF5FF",
      ("#F3E8FF", "#FAF5FF", "#FFFFFF"),
      ("rgba(107, 33, 168, 0.55)", "rgba(168, 85, 247, 0.22)", "rgba(15, 23, 42, 0.08)"),
      "rgba(147, 51, 234, 0.12)", "rgba(216, 180, 254, 0.17)")
    case Pink => PlayerColorTheme(Pink, "Pink", "#DB2777", "#BE185D", "#9D174D", "#FDF2F8",
      ("#FCE7F3", "#FDF2F8", "#FFFFFF"),
      ("rgba(157, 23, 77, 0.55)", "rgba(236, 72, 153, 0.22)", "rgba(15, 23, 42, 0.08)"),
      "rgba(219, 39, 119, 0.12)", "rgba(244, 114, 182, 0.18)")
    case Indigo => PlayerColorTheme(Indigo, "Indigo", "#4F46E5", "#4338CA", "#312E81", "#EEF2FF",
      ("#E0E7FF", "#EEF2FF", "#FFFFFF"),
      ("rgba(49, 46, 129, 0.56)", "rgba(79, 70, 229, 0.24)", "rgba(15, 23, 42, 0.08)"),
      "rgba(79, 70, 229, 0.12)", "rgba(165, 180, 252, 0.18)")
    case Teal => PlayerColorTheme(Teal, "Teal", "#0D9488", "#0F766E", "#134E4A", "#F0FDFA",
      ("#CCFBF1", "#F0FDFA", "#FFFFFF"),
      ("rgba(19, 78, 74, 0.55)", "rgba(13, 148, 136, 0.22)", "rgba(15, 23, 42, 0.08)"),
      "rgba(13, 148, 136, 0.12)", "rgba(153, 246, 228, 0.18)")
    case Cyan => PlayerColorTheme(Cyan, "Cyan", "#0891B2", "#0E7490", "#164E63", "#ECFEFF",
      ("#CFFAFE", "#ECFEFF", "#FFFFFF"),
      ("rgba(22, 78, 99, 0.55)", "rgba(8, 145, 178, 0.22)", "rgba(15, 23, 42, 0.08)"),
      "rgba(8, 145, 178, 0.12)", "rgba(165, 243, 252, 0.18)")
    case Amber => PlayerColorTheme(Amber, "Amber", "#D97706", "#B45309", "#78350F", "#FFFBEB",
      ("#FEF3C7", "#FFFBEB", "#FFFFFF"),
      ("rgba(120, 53, 15, 0.58)", "rgba(217, 119, 6, 0.24)", "rgba(15, 23, 42, 0.08)"),
      "rgba(217, 119, 6, 0.14)", "rgba(253, 230, 138, 0.2)")
  }

  /** Every table entry is filed under its own key. */
  lemma ThemeTableIsKeyed(k: PlayerColorKey)
    ensures ThemeOf(k).key == k
  {
  }

  /** The theme of the key a stored colour normalises to. */
  function ResolvePlayerColorTheme(value: Option<string>, fallback: PlayerColorKey): (t: PlayerColorTheme)
    ensures t.key == NormalizePlayerColorKey(value, fallback)
    ensures value.None? || value.value == "" ==> t.key == fallback
  {
    var k := NormalizePlayerColorKey(value, fallback);
    ThemeTableIsKeyed(k);
    ThemeOf(k)
  }
}
