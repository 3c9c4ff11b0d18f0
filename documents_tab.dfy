/**
 * The document checklist of a case (DocumentsTab): which documents the survey
 * answers make mandatory, how the case's documents are grouped for display, the
 * document list kept in component state across uploads and deletes, and the
 * normalisation of a stored file path into a URL.
 */
module DocumentsTab {
  import opened Wrappers
  import opened Text
  import opened Seqs
  import opened JsRecords

  // ---------------------------------------------------------------- required documents

  /** "Add `name` when `answers[key] === expected`." */
  datatype Rule = Rule(key: string, expected: string, name: string)

  const MARRIAGE_RULE: Rule := Rule("relationshipType", "casado", "Registro Civil de Matrimonio")
  const COHABITATION_RULE: Rule := Rule("relationshipType", "union_libre", "Declaración Extrajuicio de Convivencia")

  /** The 25 checks of `requiredDocs`, in the order the component performs them. */
  const REQUIRED_RULES: seq<Rule> := [
    Rule("hasId", "si", "Cédula de Ciudadanía (Ambas caras)"),
    Rule("hasRut", "si", "Copia del RUT"),
    Rule("hasJob", "si", "Certificado Laboral (< 30 días)"),
    Rule("hasProperties", "si", "Certificado de Libertad y Tradición"),
    Rule("hasVehicle", "si", "Tarjeta de Propiedad del Vehículo"),
    Rule("needsPower", "si", "Poder de Representación Firmado"),
    MARRIAGE_RULE,
    COHABITATION_RULE,
    Rule("hasMinorChildren", "si", "Registros Civiles de Nacimiento (Hijos Menores)"),
    Rule("hasAdultChildren", "si", "Registros Civiles de Nacimiento (Hijos Mayores)"),
    Rule("sharedAssets", "si", "Relación de Inventario de Bienes"),
    Rule("hasAgreement", "si", "Acta de Conciliación / Resolución"),
    Rule("hasViolence", "si", "Medida de Protección / Denuncia"),
    Rule("hasDeathCert", "si", "Registro Civil de Defunción"),
    Rule("hasWill", "si", "Copia de Escritura Pública del Testamento"),
    Rule("deceasedMarital", "si", "Registro de Matrimonio / Prueba Unión (Fallecido)"),
    Rule("hasOtherHeirs", "si", "Registros Civiles de los Herederos"),
    Rule("hasBankAccounts", "si", "Certificado Bancario de Saldos"),
    Rule("hasInsurance", "si", "Póliza de Seguro"),
    Rule("hasContract", "si", "Copia del Contrato (Laboral/Arrendamiento)"),
    Rule("debtTitle", "si", "Copia del Título Valor Original"),
    Rule("hasEvidence", "si", "Impresión de Pantallazos o Correos"),
    Rule("hasTermination", "si", "Carta de Despido"),
    Rule("hasPayStubs", "si", "Desprendibles de Nómina"),
    Rule("hasPoliceReport", "si", "Copia de la Denuncia (Fiscalía)")
  ]

  /** Strict equality of the stored answer with the expected string. */
  predicate Fires(answers: Record, rule: Rule) {
    Get(answers, rule.key) == JStr(rule.expected)
  }

  function Names(rules: seq<Rule>): (ns: seq<string>)
    ensures |ns| == |rules|
    ensures forall i :: 0 <= i < |rules| ==> ns[i] == rules[i].name
  {
    if rules == [] then [] else [rules[0].name] + Names(rules[1..])
  }

  function FiresOn(answers: Record): Rule -> bool {
    r => Fires(answers, r)
  }

  /** The rules that fire for `answers`, in table order. */
  function FiredRules(answers: Record): (fired: seq<Rule>)
    ensures forall r :: r in fired <==> r in REQUIRED_RULES && Fires(answers, r)
    ensures IsSubsequence(fired, REQUIRED_RULES)
  {
    FilterIsSubsequence(REQUIRED_RULES, FiresOn(answers));
    Filter(REQUIRED_RULES, FiresOn(answers))
  }

  datatype RequiredDoc = RequiredDoc(id: int, name: string, required: bool)

  /**
   * The loop behind `requiredDocs`: walks `rules` in order and pushes one entry
   * for each rule that fires, numbered by the running `idCounter` from 1.
   */
  method CollectRequired(answers: Record, rules: seq<Rule>) returns (docs: seq<RequiredDoc>)
    ensures docs == Numbered(Filter(rules, FiresOn(answers)), 1)
  {
    docs := [];
    var idCounter := 1;
    var i := 0;
    while i < |rules|
      invariant 0 <= i <= |rules|
      invariant idCounter == |docs| + 1
      invariant docs == Collected(answers, rules[..i])
    {
      var rule := rules[i];
      assert rules[..i + 1][..i] == rules[..i];
      if Get(answers, rule.key) == JStr(rule.expected) {
        docs := docs + [RequiredDoc(idCounter, rule.name, true)];
        idCounter := idCounter + 1;
      }
      i := i + 1;
    }
    assert rules[..i] == rules;
    CollectedIsNumbered(answers, rules);
  }

  /** What the loop has pushed after walking `rules`, turn by turn. */
  function Collected(answers: Record, rules: seq<Rule>): seq<RequiredDoc> {
    if rules == [] then []
    else
      var before := Collected(answers, rules[..|rules| - 1]);
      var rule := rules[|rules| - 1];
      if Fires(answers, rule) then before + [RequiredDoc(|before| + 1, rule.name, true)] else before
  }

  /** The loop numbers the rules that fire, in order, from 1. */
  lemma {:induction false} CollectedIsNumbered(answers: Record, rules: seq<Rule>)
    ensures Collected(answers, rules) == Numbered(Filter(rules, FiresOn(answers)), 1)
    decreases |rules|
  {
    if rules != [] {
      var i := |rules| - 1;
      CollectedIsNumbered(answers, rules[..i]);
      assert rules[..i + 1] == rules;
      CollectStep(answers, rules, i, Collected(answers, rules[..i]), Collected(answers, rules));
    }
  }

  /** One turn of the loop: a rule that fires adds the next numbered entry, any other adds nothing. */
  lemma CollectStep(answers: Record, rules: seq<Rule>, i: int, before: seq<RequiredDoc>, after: seq<RequiredDoc>)
    requires 0 <= i < |rules|
    requires before == Numbered(Filter(rules[..i], FiresOn(answers)), 1)
    requires after == if Fires(answers, rules[i]) then before + [RequiredDoc(|before| + 1, rules[i].name, true)] else before
    ensures after == Numbered(Filter(rules[..i + 1], FiresOn(answers)), 1)
  {
    var p := FiresOn(answers);
    var kept := Filter(rules[..i], p);
    assert p(rules[i]) == Fires(answers, rules[i]);
    FilterStep(rules, i, p);
    if p(rules[i]) {
      assert Filter(rules[..i + 1], p) == kept + [rules[i]];
      NumberedAppend(kept, rules[i], 1);
      assert |before| == |kept|;
    } else {
      assert Filter(rules[..i + 1], p) == kept;
    }
  }

  lemma FilterStep(rules: seq<Rule>, i: int, p: Rule -> bool)
    requires 0 <= i < |rules|
    ensures Filter(rules[..i + 1], p) == Filter(rules[..i], p) + (if p(rules[i]) then [rules[i]] else [])
  {
    assert rules[..i + 1] == rules[..i] + [rules[i]];
    FilterConcat(rules[..i], [rules[i]], p);
    assert [rules[i]][1..] == [];
  }

  lemma NumberedAppend(a: seq<Rule>, x: Rule, start: int)
    ensures Numbered(a + [x], start) == Numbered(a, start) + [RequiredDoc(start + |a|, x.name, true)]
  {
  }

  /**
   * `requiredDocs`: one entry per rule of the table that fires, in table order,
   * with ids 1..n and each marked required.
   */
  method RequiredDocs(answers: Record) returns (docs: seq<RequiredDoc>)
    ensures |docs| == |FiredRules(answers)|
    ensures forall i :: 0 <= i < |docs| ==>
              docs[i] == RequiredDoc(i + 1, FiredRules(answers)[i].name, true)
  {
    docs := CollectRequired(answers, REQUIRED_RULES);
  }

  /** The names of `rules` as required documents numbered from `start`. */
  function Numbered(rules: seq<Rule>, start: int): (docs: seq<RequiredDoc>)
    ensures |docs| == |rules|
    ensures forall i :: 0 <= i < |rules| ==> docs[i] == RequiredDoc(start + i, rules[i].name, true)
  {
    if rules == [] then [] else [RequiredDoc(start, rules[0].name, true)] + Numbered(rules[1..], start + 1)
  }

  /** A document is required exactly when some rule of the table naming it fires. */
  lemma RequiredIff(answers: Record, name: string)
    ensures name in Names(FiredRules(answers)) <==>
            exists r :: r in REQUIRED_RULES && r.name == name && Fires(answers, r)
  {
    var fired := FiredRules(answers);
    if name in Names(fired) {
      var i :| 0 <= i < |fired| && Names(fired)[i] == name;
      assert fired[i] in fired;
    }
  }

  /** Two rules on the same answer with different expected values never both fire. */
  lemma ExclusiveRules(answers: Record, r1: Rule, r2: Rule)
    requires r1.key == r2.key && r1.expected != r2.expected
    ensures !(r1 in FiredRules(answers) && r2 in FiredRules(answers))
  {
  }

  /** The marriage and the cohabitation certificates are never both required. */
  lemma AtMostOneMarriageDoc(answers: Record)
    ensures !(MARRIAGE_RULE in FiredRules(answers) && COHABITATION_RULE in FiredRules(answers))
  {
    ExclusiveRules(answers, MARRIAGE_RULE, COHABITATION_RULE);
  }

  // ---------------------------------------------------------------- document groups

  /**
   * A document of the case. `id` is whatever the backend or the upload handler put
   * there (a string from the backend, or a number from the clock).
   */
  datatype Document = Document(id: JsValue, name: string, status: string, path: Option<string>, docType: Option<string>)

  const GENERATED_TYPES: seq<string> := ["PODER", "CONTRATO", "CARTA"]

  /** `['PODER', 'CONTRATO', 'CARTA'].includes(doc.type)`. */
  predicate IsGenerated(d: Document) {
    d.docType.Some? && d.docType.value in GENERATED_TYPES
  }

  /** `generatedDocs`: the generated documents, in their original order. */
  function GeneratedDocs(docs: seq<Document>): (r: seq<Document>)
    ensures forall d :: d in r <==> d in docs && IsGenerated(d)
    ensures IsSubsequence(r, docs)
  {
    FilterIsSubsequence(docs, IsGenerated);
    Filter(docs, IsGenerated)
  }

  /** `additionalUploadedDocs`: neither generated nor carrying the name of a required document. */
  function AdditionalDocs(docs: seq<Document>, requiredNames: seq<string>): (r: seq<Document>)
    ensures forall d :: d in r <==> d in docs && !IsGenerated(d) && d.name !in requiredNames
    ensures IsSubsequence(r, docs)
  {
    FilterIsSubsequence(docs, (d: Document) => !IsGenerated(d) && d.name !in requiredNames);
    Filter(docs, (d: Document) => !IsGenerated(d) && d.name !in requiredNames)
  }

  /** The two groups never share a document, and no additional one has a required name. */
  lemma GroupsDisjoint(docs: seq<Document>, answers: Record)
    ensures var gen := GeneratedDocs(docs);
            var add := AdditionalDocs(docs, Names(FiredRules(answers)));
            (forall d :: d in gen ==> d !in add) &&
            (forall d :: d in add ==> d.name !in Names(FiredRules(answers)))
  {
  }

  // ---------------------------------------------------------------- the document list

  /** `5 * 1024 * 1024`: the largest file, in bytes, the tab sends. */
  const MAX_UPLOAD_BYTES: int := 5 * 1024 * 1024

  /** What the backend answers to a successful upload: `response.data.id` and `.path`. */
  datatype UploadResponse = UploadResponse(id: JsValue, path: Option<string>)

  /** The entry the tab records for an upload; `now` stands for `Date.now()`. */
  function NewDoc(docName: string, response: UploadResponse, now: int): (d: Document)
    ensures d.name == docName && d.docType == Some("UPLOADED") && !IsGenerated(d)
    ensures d.id == if Truthy(response.id) then response.id else JNum(now as real)
  {
    Document(if Truthy(response.id) then response.id else JNum(now as real),
             docName, "UPLOADED", response.path, Some("UPLOADED"))
  }

  /** The list after a successful upload: entries with the same name or id go, the new one is appended. */
  function AfterUpload(docs: seq<Document>, newDoc: Document): seq<Document> {
    Filter(docs, (d: Document) => d.name != newDoc.name && d.id != newDoc.id) + [newDoc]
  }

  /**
   * After an upload exactly one entry carries the uploaded name, it is the last
   * one, it is an upload and not a generated document, and every other entry
   * whose name and id differ from the new one's is still there.
   */
  lemma UploadReplaces(docs: seq<Document>, newDoc: Document)
    requires newDoc.docType == Some("UPLOADED")
    ensures var after := AfterUpload(docs, newDoc);
            after[|after| - 1] == newDoc &&
            !IsGenerated(after[|after| - 1]) &&
            (forall i :: 0 <= i < |after| && after[i].name == newDoc.name ==> i == |after| - 1) &&
            (forall d :: d in docs && d.name != newDoc.name && d.id != newDoc.id ==> d in after)
  {
    var kept := Filter(docs, (d: Document) => d.name != newDoc.name && d.id != newDoc.id);
    var after := AfterUpload(docs, newDoc);
    forall i | 0 <= i < |after| && after[i].name == newDoc.name
      ensures i == |after| - 1
    {
    }
  }

  /**
   * `handleDelete`'s update: every entry whose id is strictly equal to `docId` is
   * dropped, the rest keep their order. The id is whatever the row carries, a
   * string or a number.
   */
  function AfterDelete(docs: seq<Document>, docId: JsValue): (r: seq<Document>)
    ensures forall d :: d in r <==> d in docs && d.id != docId
    ensures IsSubsequence(r, docs)
  {
    FilterIsSubsequence(docs, (d: Document) => d.id != docId);
    Filter(docs, (d: Document) => d.id != docId)
  }

  /** An entry recorded with a clock id (no backend id) can be deleted again by that id. */
  lemma ClockIdDeletable(docs: seq<Document>, docName: string, response: UploadResponse, now: int)
    requires !Truthy(response.id)
    ensures var d := NewDoc(docName, response, now);
            d.id == JNum(now as real) && d !in AfterDelete(AfterUpload(docs, d), JNum(now as real))
  {
  }

  /** The tab's `localDocuments` and `uploadingDoc` state. */
  class DocumentList {
    var docs: seq<Document>
    var uploading: Option<string>

    constructor (initial: seq<Document>)
      ensures docs == initial && uploading == None
    {
      docs := initial;
      uploading := None;
    }

    /**
     * `uploadToBackend(file, docName)`. `size` is the file size in bytes,
     * `response` the backend's answer (None when the request failed) and `now`
     * the clock reading used when the backend returns no id.
     */
    method Upload(size: int, docName: string, response: Option<UploadResponse>, now: int)
      modifies this
      ensures size > MAX_UPLOAD_BYTES ==> docs == old(docs) && uploading == old(uploading)
      ensures size <= MAX_UPLOAD_BYTES ==> uploading == None
      ensures size <= MAX_UPLOAD_BYTES && response.Some? ==>
                docs == AfterUpload(old(docs), NewDoc(docName, response.value, now))
      ensures response.None? ==> docs == old(docs)
    {
      if size > MAX_UPLOAD_BYTES {
        return;
      }
      uploading := Some(docName);
      if response.Some? {
        var newDoc := NewDoc(docName, response.value, now);
        docs := Filter(docs, (d: Document) => d.name != docName && d.id != newDoc.id) + [newDoc];
      }
      uploading := None;
    }

    /** `handleDelete(docId)`: only when the user confirms and the backend accepts. */
    method Delete(docId: JsValue, confirmed: bool, deleted: bool)
      modifies this
      ensures docs == if confirmed && deleted then AfterDelete(old(docs), docId) else old(docs)
      ensures uploading == old(uploading)
    {
      if !confirmed {
        return;
      }
      if deleted {
        docs := AfterDelete(docs, docId);
      }
    }
  }

  // ---------------------------------------------------------------- viewing a file

  /** `s.replace(/<from>/g, <to>)` for a single character. */
  function ReplaceChar(s: string, from: char, to: char): (r: string)
    ensures |r| == |s|
    ensures forall i :: 0 <= i < |s| ==> r[i] == if s[i] == from then to else s[i]
  {
    seq(|s|, i requires 0 <= i < |s| => if s[i] == from then to else s[i])
  }

  const UPLOADS: string := "uploads"

  /** What follows the first occurrence of `sub` in `s` (all of `s` when there is none). */
  function AfterFirst(s: string, sub: string): (r: string)
    ensures IndexOf(s, sub).Some? ==> s == s[..IndexOf(s, sub).value] + sub + r
  {
    match IndexOf(s, sub)
    case Some(i) => s[i + |sub|..]
    case None => s
  }

  /** `s.split(sub)[1]` when `s` contains `sub`: the text between its first and second occurrence. */
  function SecondPiece(s: string, sub: string): string {
    var rest := AfterFirst(s, sub);
    match IndexOf(rest, sub)
    case Some(j) => rest[..j]
    case None => rest
  }

  /**
   * The path `handleView` opens, exactly as the component computes it: the part
   * of the path after `uploads` is taken with `split('uploads')[1]`.
   */
  function ViewPathAsWritten(path: string): (r: string)
    ensures |r| > 0 && r[0] == '/'
    ensures '\\' !in r
  {
    var p := if Contains(path, UPLOADS) then "/uploads" + SecondPiece(path, UPLOADS) else path;
    var q := ReplaceChar(p, '\\', '/');
    assert forall i :: 0 <= i < |q| ==> q[i] != '\\';
    if StartsWith(q, "/") then q else "/" + q
  }

  /** `"uploads/uploads.pdf".split('uploads')[1]` is `"/"`. */
  lemma SecondPieceExample(s: string)
    requires s == "uploads/uploads.pdf"
    ensures SecondPiece(s, UPLOADS) == "/"
  {
    ExampleAfterFirst(s);
    var rest := AfterFirst(s, UPLOADS);
    ExampleNextUploads(rest);
    assert rest[..1] == "/";
  }

  /** In `/uploads.pdf` the next `uploads` starts at index 1. */
  lemma ExampleNextUploads(rest: string)
    requires rest == "/uploads.pdf"
    ensures IndexOf(rest, UPLOADS) == Some(1)
  {
    assert OccursAt(rest[1..], UPLOADS, 0) by {
      assert rest[1..][0..7] == UPLOADS;
    }
    IndexOfAtStart(rest[1..], UPLOADS);
    assert !OccursAt(rest, UPLOADS, 0) by {
      assert rest[0] == '/';
    }
    IndexOfAfterMiss(rest, UPLOADS);
  }

  /** With the first occurrence at `i` and the next one `j` characters after it, the second piece is what lies between. */
  lemma SecondPieceAt(s: string, sub: string, i: nat, j: nat)
    requires IndexOf(s, sub) == Some(i)
    requires IndexOf(s[i + |sub|..], sub) == Some(j)
    ensures SecondPiece(s, sub) == s[i + |sub|..][..j]
  {
  }

  /** A file stored as `uploads/uploads.pdf` is opened as `/uploads/`: its name is lost. */
  lemma ViewPathAsWrittenDropsName(s: string)
    requires s == "uploads/uploads.pdf"
    ensures ViewPathAsWritten(s) == "/uploads/"
  {
    ExampleAfterFirst(s);
    SecondPieceExample(s);
    ViewPathAsWrittenUnder(s, "/");
    assert "/uploads" + "/" == "/uploads/";
  }

  /** When the second piece is free of `\\` and starts with `/`, it is opened directly below `/uploads`. */
  lemma ViewPathAsWrittenUnder(path: string, piece: string)
    requires Contains(path, UPLOADS) && SecondPiece(path, UPLOADS) == piece
    requires forall i :: 0 <= i < |piece| ==> piece[i] != '\\'
    ensures ViewPathAsWritten(path) == "/uploads" + piece
  {
    var p := "/uploads" + piece;
    forall i | 0 <= i < |p|
      ensures p[i] != '\\'
    {
      if i >= 8 {
        assert p[i] == piece[i - 8];
      }
    }
    NoBackslashUnchanged(p);
    assert StartsWith(p, "/") by {
      assert p[0..1] == "/";
    }
  }

  /** A string in which `sub` starts at index 0 has its first occurrence there. */
  lemma IndexOfAtStart(s: string, sub: string)
    requires OccursAt(s, sub, 0)
    ensures IndexOf(s, sub) == Some(0)
  {
  }

  /** When `sub` does not start `s`, the first occurrence is one further than in the tail. */
  lemma IndexOfAfterMiss(s: string, sub: string)
    requires s != [] && !OccursAt(s, sub, 0) && IndexOf(s[1..], sub).Some?
    ensures IndexOf(s, sub) == Some(IndexOf(s[1..], sub).value + 1)
  {
  }

  /** Replacing `\` changes nothing in a string without one. */
  lemma NoBackslashUnchanged(s: string)
    requires forall i :: 0 <= i < |s| ==> s[i] != '\\'
    ensures ReplaceChar(s, '\\', '/') == s
  {
  }

  /** The path that is meant: everything from the first `uploads` on, under `/uploads`. */
  function ViewPath(path: string): (r: string)
    ensures |r| > 0 && r[0] == '/'
    ensures '\\' !in r
  {
    var p := if Contains(path, UPLOADS) then "/uploads" + AfterFirst(path, UPLOADS) else path;
    var q := ReplaceChar(p, '\\', '/');
    var r := if StartsWith(q, "/") then q else "/" + q;
    assert forall i :: 0 <= i < |q| ==> q[i] != '\\';
    r
  }

  /** Below an `uploads` directory, the whole remainder of the stored path survives (with `/` for `\`). */
  lemma ViewPathKeepsRemainder(path: string)
    requires Contains(path, UPLOADS)
    ensures ViewPath(path) == "/uploads" + ReplaceChar(AfterFirst(path, UPLOADS), '\\', '/')
  {
    var a := AfterFirst(path, UPLOADS);
    var q := ReplaceChar("/uploads" + a, '\\', '/');
    assert q == "/uploads" + ReplaceChar(a, '\\', '/');
    assert StartsWith(q, "/");
  }

  /** The two agree whenever `uploads` occurs at most once in the path. */
  lemma ViewPathAgreesOnSingleUploads(path: string)
    requires !Contains(AfterFirst(path, UPLOADS), UPLOADS)
    ensures ViewPathAsWritten(path) == ViewPath(path)
  {
  }

  /**
   * `handleView(path)`, as the component computes it: nothing happens for a
   * missing or empty path; otherwise the URL opened is `baseUrl` followed by the
   * path rebuilt from `split('uploads')[1]`.
   */
  method HandleView(path: Option<string>, baseUrl: string) returns (url: Option<string>)
    ensures path.None? || path.value == [] ==> url.None?
    ensures path.Some? && path.value != [] ==> url == Some(baseUrl + ViewPathAsWritten(path.value))
  {
    if path.None? || path.value == [] {
      return None;
    }
    var cleanPath := path.value;
    if Contains(path.value, UPLOADS) {
      cleanPath := "/uploads" + SecondPiece(path.value, UPLOADS);
    }
    cleanPath := ReplaceChar(cleanPath, '\\', '/');
    if !StartsWith(cleanPath, "/") {
      cleanPath := "/" + cleanPath;
    }
    url := Some(baseUrl + cleanPath);
  }

  /**
   * The handler as it is meant to work: everything after the first `uploads` is
   * kept, so no stored file name is lost.
   */
  method HandleViewIntended(path: Option<string>, baseUrl: string) returns (url: Option<string>)
    ensures path.None? || path.value == [] ==> url.None?
    ensures path.Some? && path.value != [] ==> url == Some(baseUrl + ViewPath(path.value))
  {
    if path.None? || path.value == [] {
      return None;
    }
    var cleanPath := path.value;
    if Contains(path.value, UPLOADS) {
      cleanPath := "/uploads" + AfterFirst(path.value, UPLOADS);
    }
    cleanPath := ReplaceChar(cleanPath, '\\', '/');
    if !StartsWith(cleanPath, "/") {
      cleanPath := "/" + cleanPath;
    }
    url := Some(baseUrl + cleanPath);
  }

  /** In `uploads/uploads.pdf` the first `uploads` starts the path, and `/uploads.pdf` follows it. */
  lemma ExampleAfterFirst(s: string)
    requires s == "uploads/uploads.pdf"
    ensures Contains(s, UPLOADS) && AfterFirst(s, UPLOADS) == "/uploads.pdf"
  {
    assert OccursAt(s, UPLOADS, 0) by {
      assert s[0..7] == UPLOADS;
    }
    IndexOfAtStart(s, UPLOADS);
    assert s[7..] == "/uploads.pdf";
  }

  /** The corrected path of `uploads/uploads.pdf` is `/uploads` followed by the untouched remainder. */
  lemma ExampleViewPath(s: string)
    requires s == "uploads/uploads.pdf"
    ensures ViewPath(s) == "/uploads" + AfterFirst(s, UPLOADS)
  {
    ExampleAfterFirst(s);
    var rest := AfterFirst(s, UPLOADS);
    assert ReplaceChar(rest, '\\', '/') == rest by {
      NoBackslashUnchanged(rest);
    }
    ViewPathKeepsRemainder(s);
  }

  /** The corrected path keeps the name of the file stored as `uploads/uploads.pdf`. */
  lemma ViewPathKeepsName(s: string)
    requires s == "uploads/uploads.pdf"
    ensures ViewPath(s) == "/uploads/uploads.pdf"
  {
    ExampleViewPath(s);
    ExampleAfterFirst(s);
    var x := "/uploads" + AfterFirst(s, UPLOADS);
    assert x == "/uploads" + "/uploads.pdf";
  }
}
