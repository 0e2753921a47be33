/**
 * `STYLE_CONTEXTS` of main.py: the fixed, read-only table of writing styles,
 * and the lookup with fallback used when the prompt is built. The table's
 * six keys are modelled as the enumeration `StyleId`; `Key` gives the string
 * key of each, `Definition` its entry, and `StyleOrder` the dict's order.
 */
module Styles {
  import opened Wrappers
  import opened PyText

  /** One table entry: its `name`, `description` and `prompt_addition`. */
  datatype StyleDefinition = StyleDefinition(name: string, description: string, promptAddition: string)

  datatype StyleId = Formal | Casual | Professional | Journalistic | Educational | Simple

  /** The keys in the dict's insertion order. */
  const StyleOrder: seq<StyleId> := [Formal, Casual, Professional, Journalistic, Educational, Simple]

  /** The fallback of `STYLE_CONTEXTS.get(style, STYLE_CONTEXTS["casual"])`. */
  const DefaultStyle: StyleId := Casual

  function Key(id: StyleId): string {
    match id
    case Formal => "formal"
    case Casual => "casual"
    case Professional => "professional"
    case Journalistic => "journalistic"
    case Educational => "educational"
    case Simple => "simple"
  }

  /** `STYLE_CONTEXTS[Key(id)]`. */
  function Definition(id: StyleId): StyleDefinition {
    match id
    case Formal => FormalStyle()
    case Casual => CasualStyle()
    case Professional => ProfessionalStyle()
    case Journalistic => JournalisticStyle()
    case Educational => EducationalStyle()
    case Simple => SimpleStyle()
  }

  // The entries' texts below are written as concatenations of short pieces
  // only to keep the verifier's work on their lengths small; the pieces join
  // to exactly the texts of the table.

  function FormalStyle(): StyleDefinition {
    StyleDefinition(
      "Formal",
      "Bahasa resmi dan " + "akademis",
      "Gunakan bahasa formal " + "yang sesuai untuk " + "dokumen resmi, "
        + "akademis, atau " + "profesional. Hindari " + "kontraksi dan gunakan "
        + "struktur kalimat yang " + "lengkap dan baku. " + "Gunakan terminologi "
        + "yang tepat dan presisi.")
  }

  function CasualStyle(): StyleDefinition {
    StyleDefinition(
      "Kasual",
      "Bahasa santai dan mudah " + "dipahami",
      "Gunakan bahasa yang " + "santai, ramah, dan " + "mudah dipahami seperti "
        + "berbicara dengan teman. " + "Boleh menggunakan " + "kontraksi dan kata-kata "
        + "sehari-hari. Buatlah " + "seperti sedang " + "bercerita kepada teman.")
  }

  function ProfessionalStyle(): StyleDefinition {
    StyleDefinition(
      "Profesional",
      "Bahasa bisnis dan teknis",
      "Gunakan bahasa " + "profesional yang cocok " + "untuk lingkungan bisnis "
        + "atau kerja. Fokus pada " + "aspek praktis, dampak, " + "dan implikasi bisnis. "
        + "Gunakan terminologi " + "industri yang relevan.")
  }

  function JournalisticStyle(): StyleDefinition {
    StyleDefinition(
      "Jurnalistik",
      "Gaya berita dan " + "informatif",
      "Gunakan gaya penulisan " + "jurnalistik yang " + "objektif, informatif, "
        + "dan menarik. Fokus pada " + "fakta-fakta penting, " + "siapa, apa, kapan, di "
        + "mana, mengapa, dan " + "bagaimana. Gunakan lead " + "yang kuat.")
  }

  function EducationalStyle(): StyleDefinition {
    StyleDefinition(
      "Edukatif",
      "Gaya pengajaran dan " + "pembelajaran",
      "Gunakan pendekatan " + "edukatif seperti " + "seorang guru atau dosen "
        + "yang menjelaskan materi " + "kepada siswa. Berikan " + "konteks, penjelasan "
        + "istilah yang mungkin " + "tidak familiar, dan " + "hubungkan dengan konsep "
        + "yang lebih besar.")
  }

  function SimpleStyle(): StyleDefinition {
    StyleDefinition(
      "Sederhana",
      "Bahasa yang sangat " + "mudah dipahami",
      "Gunakan bahasa yang " + "sangat sederhana dan " + "mudah dipahami oleh "
        + "semua kalangan. Hindari " + "jargon teknis, gunakan " + "kata-kata sehari-hari, "
        + "dan jelaskan konsep " + "rumit dengan analogi " + "sederhana.")
  }

  /** `style in STYLE_CONTEXTS`, answering with the entry's id. */
  function ParseStyle(style: string): (r: Option<StyleId>)
    ensures r.Some? ==> Key(r.value) == style
  {
    if style == "formal" then Some(Formal)
    else if style == "casual" then Some(Casual)
    else if style == "professional" then Some(Professional)
    else if style == "journalistic" then Some(Journalistic)
    else if style == "educational" then Some(Educational)
    else if style == "simple" then Some(Simple)
    else None
  }

  predicate IsKnown(style: string) {
    ParseStyle(style).Some?
  }

  /** Every key of the table is recognised as its own entry. */
  lemma ParseKey(id: StyleId)
    ensures ParseStyle(Key(id)) == Some(id)
  {
    match id
    case Formal =>
    case Casual => assert "casual"[0] != "formal"[0];
    case Professional => assert |"professional"| != |"formal"|;
    case Journalistic => assert |"journalistic"| != |"formal"|;
    case Educational => assert |"educational"| != |"formal"|;
    case Simple => assert |"simple"| == |"formal"| && "simple"[0] != "formal"[0];
  }

  /** A style id is known exactly when it is one of the table's keys. */
  lemma KnownIffKey(style: string)
    ensures IsKnown(style) <==> exists id :: Key(id) == style
  {
    if exists id :: Key(id) == style {
      var id :| Key(id) == style;
      ParseKey(id);
    }
  }

  /**
   * `STYLE_CONTEXTS.get(style, STYLE_CONTEXTS["casual"])`, answering with the
   * id of the entry returned; the entry itself is `Definition(Lookup(style))`.
   */
  function Lookup(style: string): (r: StyleId)
    ensures IsKnown(style) ==> r == ParseStyle(style).value && Key(r) == style
    ensures !IsKnown(style) ==> r == DefaultStyle
  {
    match ParseStyle(style)
    case Some(id) => id
    case None => DefaultStyle
  }

  /** The key order lists every entry exactly once. */
  lemma StyleOrderEnumeratesTable()
    ensures |StyleOrder| == 6
    ensures forall id :: id in StyleOrder
    ensures forall i, j | 0 <= i < j < |StyleOrder| :: StyleOrder[i] != StyleOrder[j]
  {
    forall id ensures id in StyleOrder {
      assert StyleOrder[Position(id)] == id;
    }
  }

  /** Where an id sits in the dict's order. */
  function Position(id: StyleId): (k: nat)
    ensures k < |StyleOrder| && StyleOrder[k] == id
  {
    match id
    case Formal => 0
    case Casual => 1
    case Professional => 2
    case Journalistic => 3
    case Educational => 4
    case Simple => 5
  }

  /** Every id outside the table gets the same entry as `casual`. */
  lemma UnknownStylesFallBackToCasual(style: string)
    requires !IsKnown(style)
    ensures Lookup(style) == Lookup(Key(DefaultStyle)) == Casual
  {
    ParseKey(DefaultStyle);
  }

  /** Looking up a key gives its own entry. */
  lemma LookupKey(id: StyleId)
    ensures Lookup(Key(id)) == id
  {
    ParseKey(id);
  }

  /** `", ".join(STYLE_CONTEXTS.keys())`, as quoted by the rejection
      message: it names every valid style id. */
  function StyleChoices(): (r: string)
    ensures forall id: StyleId :: Contains(r, Key(id))
  {
    var keys := seq(|StyleOrder|, i requires 0 <= i < |StyleOrder| => Key(StyleOrder[i]));
    assert forall id: StyleId :: Contains(Join(keys, ", "), Key(id)) by {
      forall id: StyleId ensures Contains(Join(keys, ", "), Key(id)) {
        JoinContainsEach(keys, ", ", Position(id));
      }
    }
    Join(keys, ", ")
  }

  /** The rejection message for an unknown style id, line 162. */
  function InvalidStyleMessage(style: string): (m: string)
    ensures Contains(m, style)
    ensures forall id: StyleId :: Contains(m, Key(id))
  {
    var tail := "' tidak valid. Pilih dari: " + StyleChoices();
    ContainsInside("Gaya '", style, tail);
    assert forall id: StyleId :: Contains("Gaya '" + style + tail, Key(id)) by {
      forall id: StyleId ensures Contains("Gaya '" + style + tail, Key(id)) {
        ContainsInSuffix("' tidak valid. Pilih dari: ", StyleChoices(), Key(id));
        ContainsInSuffix("Gaya '" + style, tail, Key(id));
      }
    }
    "Gaya '" + style + ("' tidak valid. Pilih dari: " + StyleChoices())
  }
}

