/**
 * Character classes shared by the title normaliser and the file-name
 * sanitiser. The model works on ASCII: these are the sets Python 3 uses
 * for the code points 0..127.
 */
module Text {

  /** Whitespace as `str.isspace` (and so the regex class `\s` and
      `str.strip()`) sees it in ASCII: tab, line feed, vertical tab, form
      feed, carriage return, the separators 0x1C..0x1F, and space. */
  predicate IsSpace(c: char) {
    var n := c as int;
    (9 <= n <= 13) || (28 <= n <= 32)
  }

  predicate IsUpper(c: char) {
    'A' <= c <= 'Z'
  }

  /** `str.lower` on one ASCII character. */
  function ToLower(c: char): (d: char)
    ensures !IsUpper(d)
    ensures IsUpper(c) ==> d as int == c as int + 32
    ensures !IsUpper(c) ==> d == c
    ensures IsSpace(d) <==> IsSpace(c)
    ensures IsPunctuation(d) <==> IsPunctuation(c)
  {
    if IsUpper(c) then (c as int + 32) as char else c
  }

  /** Membership in `string.punctuation`: !"#$%&'()*+,-./:;<=>?@[\]^_`{|}~ */
  predicate IsPunctuation(c: char) {
    var n := c as int;
    (33 <= n <= 47) || (58 <= n <= 64) || (91 <= n <= 96) || (123 <= n <= 126)
  }
}
