/** The resume parser: from the text of an uploaded resume to its
    structured fields (name, location, skills, years of experience,
    education level, projects and certifications), and the dispatch on the
    file suffix that chooses the text extractor. */
module ResumeParser {
  import opened Wrappers
  import opened Strings
  import opened Ordering
  import opened Seqs

  // ---------------------------------------------------------------------
  // Name

  /** A line with something besides whitespace on it. */
  predicate NonBlank(line: string) {
    Strip(line) != ""
  }

  /** The candidate's name: the first non-blank line of the text, stripped,
      or "Unknown" when every line is blank. */
  function ExtractName(text: string): (r: string)
    ensures r != ""
    ensures var lines := Lines(text);
      (forall i :: 0 <= i < |lines| ==> !NonBlank(lines[i])) ==> r == "Unknown"
    ensures var lines := Lines(text);
      forall i :: 0 <= i < |lines| && NonBlank(lines[i]) && (forall j :: 0 <= j < i ==> !NonBlank(lines[j]))
                  ==> r == Strip(lines[i])
  {
    var lines := Lines(text);
    var i := FirstIndex(lines, NonBlank);
    assert forall k :: 0 <= k < |lines| && NonBlank(lines[k]) && (forall j :: 0 <= j < k ==> !NonBlank(lines[j]))
                       ==> k == i by {
      forall k | 0 <= k < |lines| && NonBlank(lines[k]) && (forall j :: 0 <= j < k ==> !NonBlank(lines[j])) {
        FirstIndexIs(lines, NonBlank, k);
      }
    }
    if i < |lines| then Strip(lines[i]) else "Unknown"
  }

  // ---------------------------------------------------------------------
  // Location

  const CITIES: seq<string> := ["bangalore", "mumbai", "delhi", "pune", "hyderabad", "chennai"]

  /** One of the six city names occurs in the lowercased line. */
  predicate HasCity(line: string) {
    exists k :: 0 <= k < |CITIES| && Contains(Lower(line), CITIES[k])
  }

  /** The location: the first of the first ten lines (blank lines count)
      that names a city, stripped; `None` when none of them does. */
  function ExtractLocation(text: string): (r: Option<string>)
    ensures var lines := Lines(text);
      r.None? <==> forall i :: 0 <= i < |lines| && i < 10 ==> !HasCity(lines[i])
    ensures var lines := Lines(text);
      forall i :: 0 <= i < |lines| && i < 10 && HasCity(lines[i]) && (forall j :: 0 <= j < i ==> !HasCity(lines[j]))
                  ==> r == Some(Strip(lines[i]))
  {
    var lines := Lines(text);
    var head := Take(lines, 10);
    var i := FirstIndex(head, HasCity);
    assert forall k :: 0 <= k < |lines| && k < 10 && HasCity(lines[k]) && (forall j :: 0 <= j < k ==> !HasCity(lines[j]))
                       ==> k == i by {
      forall k | 0 <= k < |lines| && k < 10 && HasCity(lines[k]) && (forall j :: 0 <= j < k ==> !HasCity(lines[j])) {
        FirstIndexIs(head, HasCity, k);
      }
    }
    if i < |head| then Some(Strip(head[i])) else None
  }

  // ---------------------------------------------------------------------
  // Skills

  /** A canonical skill and the aliases that reveal it. */
  datatype Skill = Skill(name: string, aliases: seq<string>)

  /** The categories of the skill taxonomy, in the order the parser
      visits them. */
  datatype Category = Languages | Web | Databases | CloudDevops | ApiArchitecture | DataScience | Testing | Methodologies

  const CATEGORIES: seq<Category> :=
    [Languages, Web, Databases, CloudDevops, ApiArchitecture, DataScience, Testing, Methodologies]

  /** The entries of one category, in the order the parser lists them. */
  function CategorySkills(c: Category): seq<Skill> {
    match c
    // Programming languages.
    case Languages => [
      Skill("Python", ["python", "py"]),
      Skill("Java", ["java"]),
      Skill("JavaScript", ["javascript", "js", "ecmascript"]),
      Skill("TypeScript", ["typescript", "ts"]),
      Skill("C++", ["c++", "cpp", "cplusplus"]),
      Skill("C#", ["c#", "csharp", "c sharp"]),
      Skill("PHP", ["php"]),
      Skill("Ruby", ["ruby", "rails"]),
      Skill("Go", ["golang", "go"]),
      Skill("Rust", ["rust"]),
      Skill("Swift", ["swift"]),
      Skill("Kotlin", ["kotlin"]),
      Skill("Scala", ["scala"]),
      R_SKILL
    ]
    // Web technologies.
    case Web => [
      Skill("React", ["react", "reactjs", "react.js"]),
      Skill("Angular", ["angular", "angularjs"]),
      Skill("Vue", ["vue", "vuejs", "vue.js"]),
      Skill("Next.js", ["next.js", "nextjs", "next"]),
      Skill("Node.js", ["node", "nodejs", "node.js"]),
      Skill("Express", ["express", "expressjs", "express.js"]),
      Skill("Django", ["django"]),
      Skill("Flask", ["flask"]),
      Skill("FastAPI", ["fastapi", "fast api"]),
      Skill("Spring", ["spring", "spring boot", "springboot"]),
      Skill("ASP.NET", ["asp.net", "aspnet", "asp net"]),
      Skill("HTML", ["html", "html5"]),
      Skill("CSS", ["css", "css3"]),
      Skill("Tailwind", ["tailwind", "tailwindcss"]),
      Skill("Bootstrap", ["bootstrap"]),
      Skill("jQuery", ["jquery"])
    ]
    // Databases.
    case Databases => [
      Skill("MySQL", ["mysql", "my sql"]),
      Skill("PostgreSQL", ["postgresql", "postgres", "psql"]),
      Skill("MongoDB", ["mongodb", "mongo"]),
      Skill("Redis", ["redis"]),
      Skill("Oracle", ["oracle", "oracle db"]),
      Skill("SQL Server", ["sql server", "mssql", "ms sql"]),
      Skill("SQLite", ["sqlite"]),
      Skill("Cassandra", ["cassandra"]),
      Skill("Elasticsearch", ["elasticsearch", "elastic search", "elastic"]),
      Skill("DynamoDB", ["dynamodb", "dynamo"])
    ]
    // Cloud and DevOps.
    case CloudDevops => [
      Skill("AWS", ["aws", "amazon web services"]),
      Skill("Azure", ["azure", "microsoft azure"]),
      Skill("GCP", ["gcp", "google cloud", "google cloud platform"]),
      Skill("Docker", ["docker", "containerization"]),
      Skill("Kubernetes", ["kubernetes", "k8s"]),
      Skill("Jenkins", ["jenkins"]),
      Skill("CI/CD", ["ci/cd", "cicd", "continuous integration", "continuous deployment"]),
      Skill("Terraform", ["terraform"]),
      Skill("Ansible", ["ansible"]),
      Skill("Git", ["git", "github", "gitlab", "bitbucket"]),
      Skill("Linux", ["linux", "unix"])
    ]
    // APIs and architecture.
    case ApiArchitecture => [
      Skill("REST API", ["rest", "rest api", "restful", "restful api", "rest apis"]),
      Skill("GraphQL", ["graphql", "graph ql"]),
      Skill("Microservices", ["microservices", "micro services", "microservice"]),
      Skill("SOAP", ["soap"]),
      Skill("gRPC", ["grpc"])
    ]
    // Data science and machine learning.
    case DataScience => [
      Skill("Machine Learning", ["machine learning", "ml", "artificial intelligence", "ai"]),
      Skill("Deep Learning", ["deep learning", "neural network", "neural networks"]),
      Skill("TensorFlow", ["tensorflow", "tensor flow"]),
      Skill("PyTorch", ["pytorch", "torch"]),
      Skill("Scikit-learn", ["scikit-learn", "sklearn", "scikit learn"]),
      Skill("Pandas", ["pandas"]),
      Skill("NumPy", ["numpy", "np"]),
      Skill("Keras", ["keras"]),
      Skill("NLP", ["nlp", "natural language processing"]),
      Skill("Computer Vision", ["computer vision", "cv", "image processing"])
    ]
    // Testing.
    case Testing => [
      Skill("Jest", ["jest"]),
      Skill("Pytest", ["pytest", "py.test"]),
      Skill("JUnit", ["junit"]),
      Skill("Selenium", ["selenium"]),
      Skill("Cypress", ["cypress"]),
      Skill("Mocha", ["mocha"])
    ]
    // Methodologies and tools.
    case Methodologies => [
      Skill("Agile", ["agile", "scrum", "kanban"]),
      Skill("JIRA", ["jira"]),
      Skill("Postman", ["postman"])
    ]
  }

  /** The entries of the categories `cs`, category by category. */
  function Taxonomy(cs: seq<Category>): (r: seq<Skill>)
  {
    if cs == [] then [] else CategorySkills(cs[0]) + Taxonomy(cs[1..])
  }

  /** The "R" entry. Its alias is written in the parser as an ordinary
      (not raw) string literal, so the two `\b` escapes in it are backspace
      characters. */
  const R_SKILL: Skill := Skill("R", ["\U{8}r\U{8}"])

  /** A regex word character (`\w`), over ASCII. */
  predicate IsWordChar(c: char) {
    IsDigit(c) || IsLowerAscii(c) || IsUpperAscii(c) || c == '_'
  }

  /** The regex anchor `\b` holds at position `i` of `t`: exactly one of
      the characters either side of it is a word character. */
  predicate Boundary(t: string, i: int)
    requires 0 <= i <= |t|
  {
    (i > 0 && IsWordChar(t[i - 1])) != (i < |t| && IsWordChar(t[i]))
  }

  /** `re.search(r'\b' + re.escape(alias) + r'\b', t)` finds a match. */
  predicate AliasOccurs(t: string, alias: string) {
    exists i :: 0 <= i <= |t| && OccursAt(t, alias, i) && Boundary(t, i) && Boundary(t, i + |alias|)
  }

  /** Some alias of `skill` occurs, word-anchored, in `t`. */
  predicate HasSkill(t: string, skill: Skill) {
    exists m :: 0 <= m < |skill.aliases| && AliasOccurs(t, skill.aliases[m])
  }

  /** The canonical names of the skills of `table` that `t` mentions. */
  ghost function FoundSkills(t: string, table: seq<Skill>): set<string> {
    set j | 0 <= j < |table| && HasSkill(t, table[j]) :: table[j].name
  }

  /** The skill search over a taxonomy: each entry's aliases are tried in
      order until one occurs, the names found are collected in a set, and
      the set is returned sorted. */
  method FindSkills(t: string, table: seq<Skill>) returns (skills: seq<string>)
    ensures StrictlySorted(skills)
    ensures forall n :: n in skills <==> n in FoundSkills(t, table)
  {
    var found: set<string> := {};
    var k := 0;
    while k < |table|
      invariant 0 <= k <= |table|
      invariant found == FoundSkills(t, table[..k])
    {
      var skill := table[k];
      var m := 0;
      var hit := false;
      while m < |skill.aliases|
        invariant 0 <= m <= |skill.aliases|
        invariant hit ==> HasSkill(t, skill)
        invariant !hit ==> forall q :: 0 <= q < m ==> !AliasOccurs(t, skill.aliases[q])
      {
        if AliasOccurs(t, skill.aliases[m]) {
          hit := true;
          break;
        }
        m := m + 1;
      }
      assert hit == HasSkill(t, skill);
      if hit {
        found := found + {skill.name};
      }
      assert found == FoundSkills(t, table[..k] + [skill]) by {
        FoundSkillsSnoc(t, table[..k], skill);
      }
      assert table[..k + 1] == table[..k] + [skill];
      k := k + 1;
    }
    assert table[..k] == table;
    skills := [];
    var rest := found;
    while rest != {}
      invariant rest <= found
      invariant StrictlySorted(skills)
      invariant forall n :: n in skills <==> n in found && n !in rest
      decreases |rest|
    {
      var x :| x in rest;
      InsertStringSorted(x, skills);
      skills := InsertString(x, skills);
      rest := rest - {x};
    }
  }

  lemma FoundSkillsSnoc(t: string, table: seq<Skill>, skill: Skill)
    ensures FoundSkills(t, table + [skill])
            == FoundSkills(t, table) + (if HasSkill(t, skill) then {skill.name} else {})
  {
    var ext := table + [skill];
    forall n | n in FoundSkills(t, ext)
      ensures n in FoundSkills(t, table) + (if HasSkill(t, skill) then {skill.name} else {})
    {
      var j :| 0 <= j < |ext| && HasSkill(t, ext[j]) && ext[j].name == n;
      if j < |table| {
        assert ext[j] == table[j];
      }
    }
    forall n | n in FoundSkills(t, table)
      ensures n in FoundSkills(t, ext)
    {
      var j :| 0 <= j < |table| && HasSkill(t, table[j]) && table[j].name == n;
      assert ext[j] == table[j];
    }
    if HasSkill(t, skill) {
      assert ext[|table|] == skill;
    }
  }

  /** `n` names a taxonomy entry that `t` mentions. */
  ghost predicate TaxonomyFinds(t: string, n: string) {
    n in FoundSkills(t, Taxonomy(CATEGORIES))
  }

  /** The skills of a resume: the canonical names of the taxonomy entries
      with an alias in the lowercased text, each once, in Python string
      order. */
  method ExtractSkills(text: string) returns (skills: seq<string>)
    ensures StrictlySorted(skills)
    ensures forall n :: n in skills <==> TaxonomyFinds(Lower(text), n)
  {
    skills := FindSkills(Lower(text), Taxonomy(CATEGORIES));
  }

  /** `alias.startswith('\\b')`: the alias begins with a backslash and `b`. */
  predicate HasAnchor(alias: string)
    ensures HasAnchor(alias) <==> StartsWith(alias, "\\b")
  {
    |alias| >= 2 && alias[0] == '\\' && alias[1] == 'b'
  }

  /** No alias of `table` begins with a backslash followed by `b`. */
  predicate NoAnchors(table: seq<Skill>) {
    forall j, m :: 0 <= j < |table| && 0 <= m < |table[j].aliases| ==> !HasAnchor(table[j].aliases[m])
  }

  lemma NoAnchorsAppend(a: seq<Skill>, b: seq<Skill>)
    requires NoAnchors(a) && NoAnchors(b)
    ensures NoAnchors(a + b)
  {
    forall j, m | 0 <= j < |a + b| && 0 <= m < |(a + b)[j].aliases|
      ensures !HasAnchor((a + b)[j].aliases[m])
    {
      if j >= |a| {
        assert (a + b)[j] == b[j - |a|];
      }
    }
  }

  // Each category is checked on its own, so that each proof sees one list.
  lemma LanguagesHaveNoAnchors() ensures NoAnchors(CategorySkills(Languages)) {}
  lemma WebHaveNoAnchors() ensures NoAnchors(CategorySkills(Web)) {}
  lemma DatabasesHaveNoAnchors() ensures NoAnchors(CategorySkills(Databases)) {}
  lemma CloudDevopsHaveNoAnchors() ensures NoAnchors(CategorySkills(CloudDevops)) {}
  lemma ApiArchitectureHaveNoAnchors() ensures NoAnchors(CategorySkills(ApiArchitecture)) {}
  lemma DataScienceHaveNoAnchors() ensures NoAnchors(CategorySkills(DataScience)) {}
  lemma TestingHaveNoAnchors() ensures NoAnchors(CategorySkills(Testing)) {}
  lemma MethodologiesHaveNoAnchors() ensures NoAnchors(CategorySkills(Methodologies)) {}

  lemma {:induction false} TaxonomyHasNoAnchors(cs: seq<Category>)
    requires forall k :: 0 <= k < |cs| ==> NoAnchors(CategorySkills(cs[k]))
    ensures NoAnchors(Taxonomy(cs))
  {
    if cs != [] {
      TaxonomyHasNoAnchors(cs[1..]);
      NoAnchorsAppend(CategorySkills(cs[0]), Taxonomy(cs[1..]));
    }
  }

  /** No alias begins with a backslash followed by `b`, so the parser's
      branch for aliases that carry their own regex anchors is never taken
      and every alias goes through the escaped, word-anchored search. */
  lemma NoAliasCarriesAnchors()
    ensures NoAnchors(Taxonomy(CATEGORIES))
  {
    LanguagesHaveNoAnchors();
    WebHaveNoAnchors();
    DatabasesHaveNoAnchors();
    CloudDevopsHaveNoAnchors();
    ApiArchitectureHaveNoAnchors();
    DataScienceHaveNoAnchors();
    TestingHaveNoAnchors();
    MethodologiesHaveNoAnchors();
    TaxonomyHasNoAnchors(CATEGORIES);
  }

  /** The taxonomy has an "R" entry. */
  lemma RInTaxonomy()
    ensures R_SKILL in Taxonomy(CATEGORIES) && R_SKILL.name == "R"
  {
    assert CategorySkills(Languages)[13] == R_SKILL;
    assert Taxonomy(CATEGORIES)[13] == CategorySkills(Languages)[13];
  }

  /** The "R" entry's one alias is a backspace, "r" and a backspace, so it
      is found only in text that holds a backspace character. */
  lemma RNeedsBackspace(text: string)
    ensures HasSkill(Lower(text), R_SKILL) ==> '\U{8}' in text
  {
    var t := Lower(text);
    if HasSkill(t, R_SKILL) {
      var i :| 0 <= i <= |t| && OccursAt(t, "\U{8}r\U{8}", i) && Boundary(t, i) && Boundary(t, i + 3);
      assert t[i] == t[i..i + 3][0];
      assert LowerChar(text[i]) == '\U{8}';
    }
  }

  /** The alias "c++" ends in a non-word character, so its closing `\b`
      needs a word character straight after it: "c++ " and a final "c++"
      do not reveal C++. */
  lemma CPlusPlusNeedsFollowingWordChar(t: string)
    requires AliasOccurs(t, "c++")
    ensures exists i :: OccursAt(t, "c++", i) && i + 3 < |t| && IsWordChar(t[i + 3])
  {
    var i :| 0 <= i <= |t| && OccursAt(t, "c++", i) && Boundary(t, i) && Boundary(t, i + 3);
    assert t[i..i + 3][2] == '+';
  }

  // ---------------------------------------------------------------------
  // Years of experience

  /** The end of the run of whitespace starting at `i`. */
  function SpaceRunEnd(t: string, i: nat): (j: nat)
    requires i <= |t|
    ensures i <= j <= |t|
    ensures forall k :: i <= k < j ==> IsSpace(t[k])
    ensures j == |t| || !IsSpace(t[j])
    decreases |t| - i
  {
    if i < |t| && IsSpace(t[i]) then SpaceRunEnd(t, i + 1) else i
  }

  /** The end of the group `\d+\.?\d*` starting at the digit at `i`. */
  function GroupEnd(t: string, i: nat): (j: nat)
    requires i < |t| && IsDigit(t[i])
    ensures i < j <= |t|
  {
    var d := DigitRunEnd(t, i);
    if d < |t| && t[d] == '.' then DigitRunEnd(t, d + 1) else d
  }

  /** Where `\s*\+?\s*years?` ends when it matches at `j`. */
  function SuffixEnd(t: string, j: nat): (r: Option<nat>)
    requires j <= |t|
    ensures r.Some? ==> j < r.value <= |t|
  {
    var a := SpaceRunEnd(t, j);
    var b := if a < |t| && t[a] == '+' then a + 1 else a;
    var c := SpaceRunEnd(t, b);
    if c + 4 <= |t| && t[c..c + 4] == "year" then
      Some(if c + 4 < |t| && t[c + 4] == 's' then c + 5 else c + 4)
    else None
  }

  /** A match of `(\d+\.?\d*)\s*\+?\s*years?` at `i`: the captured group
      and the end of the whole match. */
  function MatchAt(t: string, i: nat): (r: Option<(string, nat)>)
    requires i <= |t|
    ensures r.Some? ==> i < r.value.1 <= |t| && IsNumber(r.value.0)
  {
    if i < |t| && IsDigit(t[i]) then
      var g := GroupEnd(t, i);
      var e := SuffixEnd(t, g);
      if e.Some? then
        NumberGroup(t, i);
        Some((t[i..g], e.value))
      else None
    else None
  }

  /** `s` has the shape `\d+\.?\d*`. */
  predicate IsNumber(s: string) {
    var d := DigitRunEnd(s, 0);
    0 < d && (d == |s| || (s[d] == '.' && DigitRunEnd(s, d + 1) == |s|))
  }

  lemma NumberGroup(t: string, i: nat)
    requires i < |t| && IsDigit(t[i])
    ensures IsNumber(t[i..GroupEnd(t, i)])
  {
    var g := t[i..GroupEnd(t, i)];
    var d := DigitRunEnd(t, i);
    RunEndShift(t, i, GroupEnd(t, i));
    if d < |t| && t[d] == '.' {
      RunEndShift(t, d + 1, GroupEnd(t, i));
      assert g[d - i] == '.';
      assert DigitRunEnd(g, d - i + 1) == DigitRunEnd(t, d + 1) - i;
    }
  }

  /** Digit runs read the same in a slice that starts at `i`. */
  lemma {:induction false} RunEndShift(t: string, i: nat, e: nat)
    requires i <= e <= |t|
    requires DigitRunEnd(t, i) <= e
    requires DigitRunEnd(t, i) == e || !IsDigit(t[DigitRunEnd(t, i)])
    ensures DigitRunEnd(t[..e][i..], 0) == DigitRunEnd(t, i) - i
    decreases e - i
  {
    if i < e && IsDigit(t[i]) {
      RunEndShift(t, i + 1, e);
      ShiftOne(t[..e][i..], 0);
      assert t[..e][i..][1..] == t[..e][i + 1..];
    }
  }

  /** Starting one character later after a digit leaves the run end where it was. */
  lemma ShiftOne(s: string, k: nat)
    requires k < |s| && IsDigit(s[k])
    ensures DigitRunEnd(s, k) == DigitRunEnd(s, k + 1)
  {
  }

  /** The captured groups of `re.findall` on `t` from position `i`: each
      attempt starts where the previous match ended, or one character
      further when there is no match. */
  function AllMatches(t: string, i: nat): (r: seq<string>)
    requires i <= |t|
    ensures forall k :: 0 <= k < |r| ==> IsNumber(r[k])
    decreases |t| - i
  {
    if i == |t| then []
    else
      match MatchAt(t, i)
      case Some((g, e)) => [g] + AllMatches(t, e)
      case None => AllMatches(t, i + 1)
  }

  /** The greatest string of a non-empty list, in Python string order
      (`max` on a list of `str`). */
  function MaxString(ms: seq<string>): (r: string)
    requires |ms| > 0
    ensures r in ms
    ensures forall k :: 0 <= k < |ms| ==> LessEq(ms[k], r)
  {
    if |ms| == 1 then ms[0]
    else
      var m := MaxString(ms[1..]);
      LessTotal(ms[0], m);
      var r := if Less(ms[0], m) then m else ms[0];
      assert forall k :: 1 <= k < |ms| ==> LessEq(ms[k], r) by {
        forall k | 1 <= k < |ms| ensures LessEq(ms[k], r) {
          assert ms[k] == ms[1..][k - 1];
          if r != m {
            LessEqTransitive(ms[k], m, r);
          }
        }
      }
      r
  }

  function Pow10(n: nat): (r: real)
    ensures r >= 1.0
  {
    if n == 0 then 1.0 else 10.0 * Pow10(n - 1)
  }

  /** `float(s)` for a string of the shape `\d+\.?\d*`. */
  function NumberValue(s: string): (r: real)
    requires IsNumber(s)
    ensures r >= 0.0
  {
    var d := DigitRunEnd(s, 0);
    var whole := DigitsValue(s[..d]) as real;
    if d == |s| then whole
    else
      var frac := s[d + 1..];
      whole + DigitsValue(frac) as real / Pow10(|frac|)
  }

  /** Years of experience: the value of the greatest captured number, the
      numbers compared as strings, or 0.0 when nothing matches. */
  function ExtractExperienceYears(text: string): (r: real)
    ensures r >= 0.0
    ensures AllMatches(Lower(text), 0) == [] ==> r == 0.0
    ensures var ms := AllMatches(Lower(text), 0);
      ms != [] ==> exists k :: 0 <= k < |ms| && r == NumberValue(ms[k])
                              && forall q :: 0 <= q < |ms| ==> LessEq(ms[q], ms[k])
  {
    var ms := AllMatches(Lower(text), 0);
    if ms == [] then 0.0 else NumberValue(MaxString(ms))
  }

  /** The numbers are compared as strings, not as numbers: "5" is above
      "10", so "10 years" and "5 years" together give 5. */
  lemma ExperienceComparesAsStrings()
    ensures MaxString(["10", "5"]) == "5"
    ensures NumberValue("5") == 5.0
  {
    assert Less("10", "5");
    assert DigitRunEnd("5", 0) == 1;
    assert "5"[..1] == "5";
    assert DigitsValue("5") == DigitsValue("") * 10 + 5;
  }

  /** Nothing that could start a match means no years of experience. */
  lemma NoDigitsNoExperience(text: string)
    requires forall k :: 0 <= k < |text| ==> !IsDigit(text[k])
    ensures ExtractExperienceYears(text) == 0.0
  {
    NoDigitsNoMatches(Lower(text), 0);
  }

  lemma {:induction false} NoDigitsNoMatches(t: string, i: nat)
    requires i <= |t|
    requires forall k :: 0 <= k < |t| ==> !IsDigit(t[k])
    ensures AllMatches(t, i) == []
    decreases |t| - i
  {
    if i < |t| {
      NoDigitsNoMatches(t, i + 1);
    }
  }

  // ---------------------------------------------------------------------
  // Education

  const PHD_WORDS: seq<string> := ["phd", "ph.d", "doctorate"]
  const MASTERS_WORDS: seq<string> := ["master", "mba", "m.tech", "m.sc"]
  const BACHELORS_WORDS: seq<string> := ["bachelor", "b.tech", "b.e", "b.sc"]

  /** One of `words` occurs in `t`. */
  predicate AnyIn(t: string, words: seq<string>) {
    exists k :: 0 <= k < |words| && Contains(t, words[k])
  }

  /** The education level: the highest of PhD, Masters and Bachelors whose
      keywords occur in the lowercased text, wherever they occur. */
  function ExtractEducation(text: string): (r: string)
    ensures r in {"PhD", "Masters", "Bachelors", "Unknown"}
  {
    var t := Lower(text);
    if AnyIn(t, PHD_WORDS) then "PhD"
    else if AnyIn(t, MASTERS_WORDS) then "Masters"
    else if AnyIn(t, BACHELORS_WORDS) then "Bachelors"
    else "Unknown"
  }

  /** The rank of an education level; "Unknown" and anything else rank 0. */
  function Rank(level: string): nat {
    if level == "PhD" then 3 else if level == "Masters" then 2 else if level == "Bachelors" then 1 else 0
  }

  /** The keywords that reveal a level. */
  function KeywordsOf(level: string): seq<string> {
    if level == "PhD" then PHD_WORDS else if level == "Masters" then MASTERS_WORDS
    else if level == "Bachelors" then BACHELORS_WORDS else []
  }

  /** The level reported is revealed by the text (or is "Unknown"), and no
      level of higher rank is revealed. */
  lemma EducationIsHighestRevealed(text: string)
    ensures var r := ExtractEducation(text);
      (r == "Unknown" || AnyIn(Lower(text), KeywordsOf(r)))
      && forall level :: AnyIn(Lower(text), KeywordsOf(level)) ==> Rank(level) <= Rank(r)
  {
  }

  // ---------------------------------------------------------------------
  // Projects

  /** A line naming a project: "project" in its lowercase form and a colon. */
  predicate IsProjectLine(line: string) {
    Contains(Lower(line), "project") && ':' in line
  }

  /** The projects of a resume: the first five project lines, stripped, in
      document order. */
  method ExtractProjects(text: string) returns (projects: seq<string>)
    ensures |projects| <= 5
    ensures projects == Take(FilterMap(Lines(text), IsProjectLine, Strip), 5)
  {
    var all := Collect(Lines(text), IsProjectLine, Strip);
    projects := Take(all, 5);
  }

  /** Every reported project is a stripped project line, in document order;
      when there are at most five project lines, each of them is reported. */
  lemma ProjectsAreProjectLines(text: string)
    ensures var lines := Lines(text);
      var all := FilterMap(lines, IsProjectLine, Strip);
      && (forall p :: p in Take(all, 5) ==> exists i :: 0 <= i < |lines| && IsProjectLine(lines[i]) && p == Strip(lines[i]))
      && (|all| <= 5 ==> forall i :: 0 <= i < |lines| && IsProjectLine(lines[i]) ==> Strip(lines[i]) in Take(all, 5))
  {
    var lines := Lines(text);
    var all := FilterMap(lines, IsProjectLine, Strip);
    FilterMapMembers(lines, IsProjectLine, Strip);
    forall p | p in Take(all, 5) ensures p in all {
      var k :| 0 <= k < |Take(all, 5)| && Take(all, 5)[k] == p;
      assert all[k] == p;
    }
  }

  // ---------------------------------------------------------------------
  // Certifications

  const CERT_KEYWORDS: seq<string> := ["aws", "azure", "gcp", "pmp", "scrum", "cissp", "ceh"]

  /** The upper-cased keywords of `words` that occur in `t`, in list order. */
  function KeywordsIn(t: string, words: seq<string>): (r: seq<string>)
    ensures |r| <= |words|
  {
    FilterMap(words, w => Contains(t, w), Upper)
  }

  /** The certifications of a resume: the upper-cased certification
      keywords found in the lowercased text, in keyword order. */
  method ExtractCertifications(text: string) returns (certs: seq<string>)
    ensures certs == KeywordsIn(Lower(text), CERT_KEYWORDS)
    ensures forall c :: c in certs <==> exists k :: 0 <= k < |CERT_KEYWORDS| && Contains(Lower(text), CERT_KEYWORDS[k]) && c == Upper(CERT_KEYWORDS[k])
  {
    var t := Lower(text);
    certs := Collect(CERT_KEYWORDS, w => Contains(t, w), Upper);
    FilterMapMembers(CERT_KEYWORDS, w => Contains(t, w), Upper);
  }

  // ---------------------------------------------------------------------
  // Parsing a file

  /** The two document formats with a text extractor. */
  datatype DocKind = Pdf | Docx

  /** The extractor chosen by the file path: a case-sensitive suffix test,
      ".pdf" first, then ".docx"; any other path is unsupported. */
  function KindOf(path: string): (r: Option<DocKind>)
    ensures r == Some(Pdf) <==> EndsWith(path, ".pdf")
    ensures r == Some(Docx) <==> EndsWith(path, ".docx")
  {
    assert EndsWith(path, ".pdf") ==> path[|path| - 1] == 'f';
    assert EndsWith(path, ".docx") ==> path[|path| - 1] == 'x';
    if EndsWith(path, ".pdf") then Some(Pdf)
    else if EndsWith(path, ".docx") then Some(Docx)
    else None
  }

  /** The structured fields of a parsed resume. */
  datatype ParsedResume = ParsedResume(
    rawText: string,
    name: string,
    email: Option<string>,
    phone: Option<string>,
    location: Option<string>,
    skills: seq<string>,
    experienceYears: real,
    educationLevel: string,
    projects: seq<string>,
    certifications: seq<string>)

  /** `p` holds the fields the extractors give for `text`. */
  ghost predicate IsParseOf(p: ParsedResume, text: string,
                            findEmail: string -> Option<string>, findPhone: string -> Option<string>) {
    && p.rawText == text
    && p.name == ExtractName(text)
    && p.email == findEmail(text)
    && p.phone == findPhone(text)
    && p.location == ExtractLocation(text)
    && StrictlySorted(p.skills)
    && (forall n :: n in p.skills <==> TaxonomyFinds(Lower(text), n))
    && p.experienceYears == ExtractExperienceYears(text)
    && p.educationLevel == ExtractEducation(text)
    && p.projects == Take(FilterMap(Lines(text), IsProjectLine, Strip), 5)
    && p.certifications == KeywordsIn(Lower(text), CERT_KEYWORDS)
  }

  /** Parses the resume stored at `path`. The text extractors, and the
      email and phone searches, are parameters: `extract` answers `None`
      where the extractor raises. `None` stands for the parser's error. */
  method Parse(path: string, extract: (DocKind, string) -> Option<string>,
               findEmail: string -> Option<string>, findPhone: string -> Option<string>)
    returns (r: Option<ParsedResume>)
    ensures r.Some? <==> KindOf(path).Some? && extract(KindOf(path).value, path).Some?
    ensures r.Some? ==> IsParseOf(r.value, extract(KindOf(path).value, path).value, findEmail, findPhone)
  {
    var kind := KindOf(path);
    if kind.None? {
      return None;
    }
    var extracted := extract(kind.value, path);
    if extracted.None? {
      return None;
    }
    var text := extracted.value;
    var skills := ExtractSkills(text);
    var projects := ExtractProjects(text);
    var certs := ExtractCertifications(text);
    r := Some(ParsedResume(text, ExtractName(text), findEmail(text), findPhone(text), ExtractLocation(text),
                           skills, ExtractExperienceYears(text), ExtractEducation(text), projects, certs));
  }
}
