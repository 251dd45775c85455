/** Which texts are references: the regular expression of the migration, its characters written out
    (agent/dsl_migration.py). */
module ReferenceSpelling {
  import opened Text
  import opened PyValues
  import opened References

  const DIGITS: string := "0123456789"

  predicate IsLetterOrDigit(c: char) {
    c in UPPER_CASE || c in LOWER_CASE || c in DIGITS
  }

  predicate Chars(s: string, others: string) {
    forall i | 0 <= i < |s| :: IsLetterOrDigit(s[i]) || s[i] in others
  }

  predicate Braces(s: string) {
    forall i | 0 <= i < |s| :: s[i] == '}'
  }

  /** The parts of a reference: blanks, an id of letters, digits, colons, underscores and dashes, a
      name of letters, digits, underscores, dots and dashes, blanks, and all closing braces. */
  predicate IsSpelled(b: Body) {
    && AllSpace(b.pre) && b.id != "" && Chars(b.id, ":_-")
    && b.tail.name != "" && Chars(b.tail.name, "_.-")
    && AllSpace(b.tail.blank) && b.tail.close != "" && Braces(b.tail.close)
    && (b.tail.rest != "" ==> b.tail.rest[0] != '}')
  }

  lemma DigitsAre(c: char)
    ensures '0' <= c <= '9' <==> c in DIGITS
  {
    if '0' <= c <= '9' {
      assert c == DIGITS[c as int - 48];
    }
  }

  lemma LettersAre(c: char)
    ensures IsAlphaNumeric(c) <==> IsLetterOrDigit(c)
  {
    DigitsAre(c);
    Alphabet();
    hide UPPER_CASE, LOWER_CASE, DIGITS;
    if 'A' <= c <= 'Z' {
      assert c == UPPER_CASE[c as int - 65];
    } else if 'a' <= c <= 'z' {
      assert c == LOWER_CASE[c as int - 97];
    }
  }

  lemma ClassesAre(s: string)
    ensures Chars(s, ":_-") <==> AllIn(s, IdChar)
    ensures Chars(s, "_.-") <==> AllIn(s, VarChar)
    ensures Braces(s) <==> AllIn(s, Close)
    ensures AllSpace(s) <==> AllIn(s, Space)
  {
    hide IsAlphaNumeric, IsLetterOrDigit, IsSpace;
    forall i | 0 <= i < |s|
      ensures InClass(s[i], IdChar) <==> IsLetterOrDigit(s[i]) || s[i] in ":_-"
      ensures InClass(s[i], VarChar) <==> IsLetterOrDigit(s[i]) || s[i] in "_.-"
    {
      LettersAre(s[i]);
    }
  }

  /** Every text so spelled behind a brace is found as the reference it spells, and nothing else is. */
  lemma FoundIffSpelled(t: string, b: Body)
    ensures MatchBody(t) == Some(b) <==> IsSpelled(b) && t == BodyText(b) + b.tail.rest
  {
    hide InClass, Split, Chars, Braces, AllSpace, MatchBody, IsLetterOrDigit;
    ClassesAre(b.pre);
    ClassesAre(b.id);
    ClassesAre(b.tail.name);
    ClassesAre(b.tail.blank);
    ClassesAre(b.tail.close);
    CloseIsBrace(b.tail.rest);
    if MatchBody(t) == Some(b) {
      MatchShape(t);
      IdIsText(b.id);
    }
    if IsSpelled(b) && t == BodyText(b) + b.tail.rest {
      IdIsText(b.id);
      BodyBack(b, b.tail.rest);
    }
  }

  lemma IdIsText(id: string)
    ensures IsIdText(id) <==> id != "" && AllIn(id, IdChar)
  {
  }

  lemma CloseIsBrace(x: string)
    ensures EndsClass(x, Close) <==> (x != "" ==> x[0] != '}')
  {
  }
}
