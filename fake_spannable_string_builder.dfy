/*
 * The droidsugar fake of android.text.SpannableStringBuilder: an
 * append-only text buffer that hands back the real builder it shadows.
 */
module FakeSpannable {
  import opened Wrappers

  /**
   * The characters StringBuilder.append(CharSequence) adds: the text itself,
   * or the four characters "null" for a null reference (None).
   */
  function Appended(text: Option<string>): (r: string)
    ensures text.None? ==> r == "null"
    ensures text.Some? ==> r == text.value
  {
    match text
    case None => "null"
    case Some(t) => t
  }

  /** The Android object being shadowed; the fake only hands it back. */
  class SpannableStringBuilder {
    constructor ()
    {
    }
  }

  class FakeSpannableStringBuilder {
    const realBuilder: SpannableStringBuilder
    /** The StringBuilder the fake keeps its text in. */
    var builder: string

    constructor (realBuilder: SpannableStringBuilder)
      ensures this.realBuilder == realBuilder && builder == ""
    {
      this.realBuilder := realBuilder;
      builder := "";
    }

    /**
     * __constructor__(text): the text the real constructor was given is
     * appended; a null text (None) appends "null".
     */
    method ShadowConstructor(text: Option<string>)
      modifies this`builder
      ensures text.Some? ==> builder == old(builder) + text.value
      ensures text.None? ==> builder == old(builder) + "null"
    {
      builder := builder + Appended(text);
    }

    /** append(char): one more character at the end; the real builder is returned. */
    method AppendChar(c: char) returns (r: SpannableStringBuilder)
      modifies this`builder
      ensures builder == old(builder) + [c]
      ensures Length() == old(Length()) + 1
      ensures r == realBuilder
    {
      builder := builder + [c];
      r := realBuilder;
    }

    /**
     * append(CharSequence): the text goes at the end, "null" for a null text
     * (None); the real builder is returned.
     */
    method Append(text: Option<string>) returns (r: SpannableStringBuilder)
      modifies this`builder
      ensures text.Some? ==> builder == old(builder) + text.value
      ensures text.None? ==> builder == old(builder) + "null" && Length() == old(Length()) + 4
      ensures ToString()[..|old(builder)|] == old(ToString())
      ensures r == realBuilder
    {
      builder := builder + Appended(text);
      r := realBuilder;
    }

    /** length(): the number of characters toString() returns. */
    function Length(): (n: nat)
      reads this
      ensures n == |ToString()|
    {
      |builder|
    }

    function ToString(): string
      reads this
    {
      builder
    }
  }

  /**
   * A fake built over "ab" that is then given 'c', "de" and a null text
   * reads "abcdenull", has length 9, and every append hands back the same
   * real builder.
   */
  method AppendScenario() returns (text: string, length: nat, sameReal: bool)
    ensures text == "abcdenull" && length == 9 && sameReal
  {
    var shadowed := new SpannableStringBuilder();
    var fake := new FakeSpannableStringBuilder(shadowed);
    fake.ShadowConstructor(Some("ab"));
    var r1 := fake.AppendChar('c');
    var r2 := fake.Append(Some("de"));
    var r3 := fake.Append(None);
    text := fake.ToString();
    length := fake.Length();
    sameReal := r1 == shadowed && r2 == shadowed && r3 == shadowed;
  }
}
