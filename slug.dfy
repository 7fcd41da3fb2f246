// `generate_slug` of the markdown import: the URL slug an imported topic gets
// from its name, with the shape and alphabet every slug has and the two names
// its test checks.
module Slug {
  import opened Ascii

  // ---- generate_slug ----

  /** One character of the lower-cased name: letters and digits stay,
      whitespace becomes a dash and anything else an underscore. */
  function SlugChar(c: char): char
  {
    if IsAlphanumeric(c) then c else if IsWhitespace(c) then '-' else '_'
  }

  function SlugChars(s: string): (r: string)
    ensures |r| == |s|
    ensures forall i :: 0 <= i < |s| ==> r[i] == SlugChar(s[i])
  {
    if s == [] then [] else [SlugChar(s[0])] + SlugChars(s[1..])
  }

  /** `filter(|s| !s.is_empty())`. */
  function NonEmpty(parts: seq<string>): (r: seq<string>)
    ensures forall i :: 0 <= i < |r| ==> r[i] != [] && r[i] in parts
    ensures Concat(r) == Concat(parts)
  {
    if parts == [] then []
    else
      var rest := NonEmpty(parts[1..]);
      if parts[0] == [] then rest
      else
        var r := [parts[0]] + rest;
        assert r[0] == parts[0] && r[1..] == rest;
        r
  }

  /** `generate_slug`: lower-case, map the characters, split on dashes,
      drop the empty pieces and join the rest with single dashes. */
  function GenerateSlug(name: string): string
  {
    Join(NonEmpty(Split(SlugChars(Lower(name)), '-')), '-')
  }

  /** The characters a slug is made of. */
  predicate SlugAlphabet(c: char)
  {
    IsLower(c) || IsDigit(c) || c == '-' || c == '_'
  }

  lemma SlugPieces(name: string)
    ensures var parts := NonEmpty(Split(SlugChars(Lower(name)), '-'));
            forall i :: 0 <= i < |parts| ==> parts[i] != [] && '-' !in parts[i]
  {
  }

  /** A slug neither starts nor ends with a dash and never holds two dashes
      in a row, however many spaces the name had. */
  lemma SlugShape(name: string)
    ensures WellSeparated(GenerateSlug(name), '-')
  {
    SlugPieces(name);
    JoinWellSeparated(NonEmpty(Split(SlugChars(Lower(name)), '-')), '-');
  }

  /** Apart from the dashes, the slug is exactly the mapped characters of the
      lower-cased name, in order: nothing else is lost or added. */
  lemma SlugKeepsCharacters(name: string)
    ensures Without(GenerateSlug(name), '-') == Without(SlugChars(Lower(name)), '-')
  {
    var mapped := SlugChars(Lower(name));
    SlugPieces(name);
    WithoutJoin(NonEmpty(Split(mapped, '-')), '-');
    ConcatSplit(mapped, '-');
  }

  lemma {:induction false} WithoutSubset(s: string, sep: char)
    ensures forall c :: c in Without(s, sep) ==> c in s
  {
    if s != [] {
      WithoutSubset(s[1..], sep);
      assert forall c :: c in s[1..] ==> c in s;
    }
  }

  /** A slug holds only lower-case letters, digits, dashes and underscores. */
  lemma SlugAlphabetOnly(name: string)
    ensures forall i :: 0 <= i < |GenerateSlug(name)| ==> SlugAlphabet(GenerateSlug(name)[i])
  {
    var slug := GenerateSlug(name);
    var mapped := SlugChars(Lower(name));
    SlugKeepsCharacters(name);
    WithoutSubset(mapped, '-');
    forall i | 0 <= i < |slug|
      ensures SlugAlphabet(slug[i])
    {
      if slug[i] != '-' {
        WithoutKeeps(slug, i, '-');
        var j :| 0 <= j < |mapped| && mapped[j] == slug[i];
        assert mapped[j] == SlugChar(Lower(name)[j]) && Lower(name)[j] == ToLower(name[j]);
      }
    }
  }

  lemma {:induction false} WithoutKeeps(s: string, i: nat, sep: char)
    requires i < |s| && s[i] != sep
    ensures s[i] in Without(s, sep)
  {
    if i > 0 {
      WithoutKeeps(s[1..], i - 1, sep);
    }
  }


  lemma {:induction false} LowerAppend(a: string, b: string)
    ensures Lower(a + b) == Lower(a) + Lower(b)
  {
    if a != [] {
      assert (a + b)[0] == a[0] && (a + b)[1..] == a[1..] + b;
      LowerAppend(a[1..], b);
    } else {
      assert a + b == b;
    }
  }

  lemma {:induction false} SlugCharsAppend(a: string, b: string)
    ensures SlugChars(a + b) == SlugChars(a) + SlugChars(b)
  {
    if a != [] {
      assert (a + b)[0] == a[0] && (a + b)[1..] == a[1..] + b;
      SlugCharsAppend(a[1..], b);
    } else {
      assert a + b == b;
    }
  }

  /** The mapped, lower-cased characters of a name given in three parts. */
  lemma MappedParts(a: string, b: string, c: string)
    ensures SlugChars(Lower(a + b + c)) == SlugChars(Lower(a)) + SlugChars(Lower(b)) + SlugChars(Lower(c))
  {
    LowerAppend(a + b, c);
    LowerAppend(a, b);
    SlugCharsAppend(Lower(a) + Lower(b), Lower(c));
    SlugCharsAppend(Lower(a), Lower(b));
  }

  // ---- the examples of the generate_slug test ----

  lemma SpringWord() ensures SlugChars(Lower("Spring")) == "spring" {}
  lemma BootWord() ensures SlugChars(Lower("Boot")) == "boot" {}
  lemma SpaceWord() ensures SlugChars(Lower(" ")) == "-" {}
  lemma SqlWord() ensures SlugChars(Lower("SQL")) == "sql" {}
  lemma AmpersandWord() ensures SlugChars(Lower("&")) == "_" {}
  lemma DataWord() ensures SlugChars(Lower("Data")) == "data" {}
  lemma BasWord() ensures SlugChars(Lower("bas")) == "bas" {}
  lemma EsWord() ensures SlugChars(Lower("es")) == "es" {}

  /** The mapped characters of a name in three parts, from those of the parts. */
  lemma MappedFrom(a: string, b: string, c: string, x: string, y: string, z: string)
    requires SlugChars(Lower(a)) == x && SlugChars(Lower(b)) == y && SlugChars(Lower(c)) == z
    ensures SlugChars(Lower(a + b + c)) == x + y + z
  {
    MappedParts(a, b, c);
  }

  /** The slug read off its three stages. */
  lemma SlugFrom(name: string, mapped: string, parts: seq<string>, slug: string)
    requires SlugChars(Lower(name)) == mapped
    requires NonEmpty(Split(mapped, '-')) == parts
    requires Join(parts, '-') == slug
    ensures GenerateSlug(name) == slug
  {
  }

  lemma LastPiece(a: string, sep: char)
    requires a != [] && sep !in a
    ensures NonEmpty(Split(a, sep)) == [a]
  {
    SplitFree(a, sep);
    assert [a][1..] == [];
  }

  lemma PieceThen(a: string, rest: string, sep: char)
    requires a != [] && sep !in a
    ensures NonEmpty(Split(a + [sep] + rest, sep)) == [a] + NonEmpty(Split(rest, sep))
  {
    SplitFirst(a, rest, sep);
    assert ([a] + Split(rest, sep))[1..] == Split(rest, sep);
  }

  lemma JoinCons(a: string, parts: seq<string>, sep: char)
    requires parts != []
    ensures Join([a] + parts, sep) == a + [sep] + Join(parts, sep)
  {
    assert ([a] + parts)[1..] == parts;
  }

  lemma SpringBootMapped()
    ensures SlugChars(Lower("Spring Boot")) == "spring-boot"
  {
    SpringWord();
    SpaceWord();
    BootWord();
    MappedFrom("Spring", " ", "Boot", "spring", "-", "boot");
    SpringBootTexts();
  }

  lemma SpringBootTexts()
    ensures "Spring Boot" == "Spring" + " " + "Boot"
    ensures "spring" + "-" + "boot" == "spring-boot"
    ensures "spring-boot" == "spring" + ['-'] + "boot"
    ensures '-' !in "spring" && '-' !in "boot"
  {
  }

  lemma SpringBootPieces()
    ensures NonEmpty(Split("spring-boot", '-')) == ["spring", "boot"]
  {
    SpringBootTexts();
    PieceThen("spring", "boot", '-');
    LastPiece("boot", '-');
  }

  lemma SpringBootJoined()
    ensures Join(["spring", "boot"], '-') == "spring-boot"
  {
    SpringBootTexts();
    JoinCons("spring", ["boot"], '-');
  }

  /** The slug of "Spring Boot", as the test of `generate_slug` expects. */
  lemma SpringBootSlug()
    ensures GenerateSlug("Spring Boot") == "spring-boot"
  {
    SpringBootMapped();
    SpringBootPieces();
    SpringBootJoined();
    SlugFrom("Spring Boot", "spring-boot", ["spring", "boot"], "spring-boot");
  }

  lemma AmpersandTexts()
    ensures "SQL & Databases" == "SQL" + " " + "& Databases"
    ensures "& Databases" == "&" + " " + "Databases"
    ensures "_" + "-" + "databases" == "_-databases"
    ensures "sql" + "-" + "_-databases" == "sql-_-databases"
    ensures "sql-_-databases" == "sql" + ['-'] + "_-databases"
    ensures "_-databases" == "_" + ['-'] + "databases"
    ensures '-' !in "sql" && '-' !in "_" && '-' !in "databases"
    ensures "Databases" == "Data" + "bas" + "es" && "data" + "bas" + "es" == "databases"
  {
  }

  lemma AmpersandMapped()
    ensures SlugChars(Lower("SQL & Databases")) == "sql-_-databases"
  {
    SqlWord();
    SpaceWord();
    AmpersandWord();
    DataWord();
    BasWord();
    EsWord();
    AmpersandTexts();
    MappedFrom("Data", "bas", "es", "data", "bas", "es");
    MappedFrom("&", " ", "Databases", "_", "-", "databases");
    MappedFrom("SQL", " ", "& Databases", "sql", "-", "_-databases");
  }

  lemma AmpersandPieces()
    ensures NonEmpty(Split("sql-_-databases", '-')) == ["sql", "_", "databases"]
  {
    AmpersandTexts();
    PieceThen("sql", "_-databases", '-');
    PieceThen("_", "databases", '-');
    LastPiece("databases", '-');
  }

  lemma AmpersandJoined()
    ensures Join(["sql", "_", "databases"], '-') == "sql-_-databases"
  {
    AmpersandTexts();
    JoinCons("_", ["databases"], '-');
    JoinCons("sql", ["_", "databases"], '-');
  }

  /** An ampersand between spaces stays as an underscore piece: the slug of
      "SQL & Databases" is "sql-_-databases", not the "sql-databases" the
      test of `generate_slug` expects. */
  lemma AmpersandSlug()
    ensures GenerateSlug("SQL & Databases") == "sql-_-databases"
  {
    AmpersandMapped();
    AmpersandPieces();
    AmpersandJoined();
    SlugFrom("SQL & Databases", "sql-_-databases", ["sql", "_", "databases"], "sql-_-databases");
  }
}
