/** The tables of characters that the source leaves to Python, spelled out. */
module CharTables {
  import opened Text
  import opened ChunkIds

  const SMALL: string := "abcdefghijklmnopqrstuvwxyz"
  const CAPITAL: string := "ABCDEFGHIJKLMNOPQRSTUVWXYZ"
  const DIGITS: string := "0123456789"

  lemma LettersInOrder()
    ensures |SMALL| == |CAPITAL| == 26 && |DIGITS| == 10
    ensures forall i: nat :: i < 26 ==> SMALL[i] as nat == 'a' as nat + i && CAPITAL[i] as nat == 'A' as nat + i
    ensures forall i: nat :: i < 10 ==> DIGITS[i] as nat == '0' as nat + i
  {
  }

  // A slug is made of small letters, digits and dashes.
  lemma SlugAlphabet(c: char)
    ensures SlugChar(c) <==> c in SMALL || c in DIGITS
  {
    LettersInOrder();
    if 'a' <= c <= 'z' {
      assert SMALL[c as nat - 'a' as nat] == c;
    }
    if '0' <= c <= '9' {
      assert DIGITS[c as nat - '0' as nat] == c;
    }
  }

  // Every capital becomes its small letter, and small letters and digits stay.
  lemma Lowered(i: nat)
    requires i < 26
    ensures LowerChar(CAPITAL[i]) == [SMALL[i]] && LowerChar(SMALL[i]) == [SMALL[i]]
    ensures i < 10 ==> LowerChar(DIGITS[i]) == [DIGITS[i]]
  {
    LettersInOrder();
  }

  // The characters that str.strip() takes off.
  lemma BlankAlphabet(c: char)
    ensures IsSpace(c) <==>
              || c in "\t\n\U{B}\U{C}\r\U{1C}\U{1D}\U{1E}\U{1F} \U{85}\U{A0}\U{1680}"
              || c in "\U{2000}\U{2001}\U{2002}\U{2003}\U{2004}\U{2005}\U{2006}\U{2007}\U{2008}\U{2009}\U{200A}"
              || c in "\U{2028}\U{2029}\U{202F}\U{205F}\U{3000}"
  {
  }
}
