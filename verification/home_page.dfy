/**
 * The class composition and the WhatsApp link of
 * `src/components/HomePage.tsx`. The page keeps its own copies of `Button`
 * and `Badge`; they are modelled from the page's own tables and proved to
 * compose exactly as the primitives of `src/components/ui/`. `Card` and
 * `CardContent` have a fixed class string and no variants.
 */
module HomePage {
  import opened Optional
  import opened TokenList
  import opened ClassNames
  import opened UrlQuery
  import UiButton
  import UiBadge

  // ------------------------------------------------------------ Button

  const ButtonBaseClasses: string :=
    "inline-flex items-center justify-center rounded-md text-sm font-medium transition-colors focus-visible:outline-none focus-visible:ring-2 disabled:opacity-50 disabled:pointer-events-none"

  /** The page's own `variants` table for its inline `Button`. */
  function ButtonVariantClasses(v: UiButton.Variant): (r: string)
    ensures r == UiButton.VariantClasses(v)
  {
    match v
    case Default => "bg-blue-600 text-white hover:bg-blue-700"
    case Outline => "border border-gray-300 hover:bg-gray-100 text-gray-900"
    case Ghost => "hover:bg-gray-100 text-gray-900"
  }

  /** The page's own `sizes` table for its inline `Button`. */
  function ButtonSizeClasses(s: UiButton.Size): (r: string)
    ensures r == UiButton.SizeClasses(s)
  {
    match s
    case Default => "h-10 py-2 px-4"
    case Sm => "h-9 px-3"
    case Lg => "h-11 px-8"
  }

  /** The inline `Button` composes its class name exactly as the `Button`
      primitive does, so every property proved there (base first, defaults,
      override last, token sequence) holds of it. */
  function ButtonClassName(props: UiButton.ButtonProps): (r: string)
    ensures r == UiButton.ClassName(props)
  {
    var v := ButtonVariantClasses(props.variant.GetOr(UiButton.Variant.Default));
    var s := ButtonSizeClasses(props.size.GetOr(UiButton.Size.Default));
    assert ButtonBaseClasses == UiButton.BaseClasses;
    CnThree(ButtonBaseClasses, v, s, props.className);
    Cn([Str(ButtonBaseClasses), Str(v), Str(s), FromOptional(props.className)])
  }

  // ------------------------------------------------------------ Badge

  const BadgeBaseClasses: string :=
    "inline-flex items-center rounded-full border px-2.5 py-0.5 text-xs font-semibold transition-colors"

  /** The page's own `variants` table for its inline `Badge`. */
  function BadgeVariantClasses(v: UiBadge.Variant): (r: string)
    ensures r == UiBadge.VariantClasses(v)
  {
    match v
    case Default => "border-transparent bg-blue-600 text-white hover:bg-blue-700"
    case Secondary => "border-transparent bg-gray-100 text-gray-900 hover:bg-gray-200"
    case Destructive => "border-transparent bg-red-600 text-white hover:bg-red-700"
    case Outline => "text-gray-900 border-gray-300"
  }

  /** The inline `Badge` composes its class name exactly as the `Badge`
      primitive does. */
  function BadgeClassName(props: UiBadge.BadgeProps): (r: string)
    ensures r == UiBadge.ClassName(props)
  {
    var v := BadgeVariantClasses(props.variant.GetOr(UiBadge.Variant.Default));
    assert BadgeBaseClasses == UiBadge.BaseClasses;
    CnTwo(BadgeBaseClasses, v, props.className);
    Cn([Str(BadgeBaseClasses), Str(v), FromOptional(props.className)])
  }

  // ------------------------------------------------------------ Card

  const CardClasses: string := "rounded-lg border bg-white shadow-sm"

  const CardContentClasses: string := "p-6 pt-0"

  /** `Card`: its fixed classes, then the caller's `className` after one
      space; an absent or empty `className` adds nothing. */
  function CardClassName(className: Option<string>): (r: string)
    ensures r == CardClasses + OverrideSuffix(className)
    ensures Tokens(r) == Tokens(CardClasses) + Tokens(className.GetOr(""))
  {
    CnOne(CardClasses, className);
    TokensWithOverride(CardClasses, className);
    Cn([Str(CardClasses), FromOptional(className)])
  }

  /** `CardContent`: its fixed classes, then the caller's `className` after
      one space; an absent or empty `className` adds nothing. */
  function CardContentClassName(className: Option<string>): (r: string)
    ensures r == CardContentClasses + OverrideSuffix(className)
    ensures Tokens(r) == Tokens(CardContentClasses) + Tokens(className.GetOr(""))
  {
    CnOne(CardContentClasses, className);
    TokensWithOverride(CardContentClasses, className);
    Cn([Str(CardContentClasses), FromOptional(className)])
  }

  /** Both cards always begin with their fixed classes and, without a
      `className`, are exactly those classes. */
  lemma CardsBeginWithFixedClasses(className: Option<string>)
    ensures CardClasses <= CardClassName(className)
    ensures CardContentClasses <= CardContentClassName(className)
    ensures className.None? ==> CardClassName(className) == CardClasses
    ensures className.None? ==> CardContentClassName(className) == CardContentClasses
  {
    assert className.None? ==> OverrideSuffix(className) == "";
  }

  // ------------------------------------------------------------ WhatsApp

  /** The phone number as written, with its leading '+'. */
  const WhatsappNumber: string := "+573208738174"

  /** Everything in the link before the encoded message. */
  const WhatsappPrefix: string := "https://wa.me/+573208738174?text="

  const WhatsappMessage: string := "Hola, me interesa conocer m\U{E1}s sobre tus servicios como DIT"

  /** The deep link. `encode` stands for `encodeURIComponent`, whose
      definition is not part of this model. The link is the fixed prefix
      `https://wa.me/+573208738174?text=` followed by exactly the encoded
      message. */
  function WhatsappUrl(encode: string -> string): (url: string)
    ensures |url| == |WhatsappPrefix| + |encode(WhatsappMessage)|
    ensures url[..|WhatsappPrefix|] == WhatsappPrefix
    ensures url[|WhatsappPrefix|..] == encode(WhatsappMessage)
  {
    "https://wa.me/" + WhatsappNumber + "?text=" + encode(WhatsappMessage)
  }

  /** The phone number keeps its '+': it is a '+' followed by digits only. */
  lemma NumberKeepsPlus()
    ensures |WhatsappNumber| > 1 && WhatsappNumber[0] == '+'
    ensures forall i :: 1 <= i < |WhatsappNumber| ==> '0' <= WhatsappNumber[i] <= '9'
  {
    var n := WhatsappNumber;
    forall i | 1 <= i < |n|
      ensures '0' <= n[i] <= '9'
    {
      assert n[i] in "0123456789";
    }
  }

  /** Read back as a URL, the link has path `/+573208738174` on `wa.me` and
      one query parameter, `text`, whose raw value is the encoded message,
      provided the encoding leaves no '#' or '&' in it (as percent-encoding
      does not). */
  lemma UrlReadsBack(encode: string -> string)
    requires '#' !in encode(WhatsappMessage) && '&' !in encode(WhatsappMessage)
    ensures BeforeQuery(WhatsappUrl(encode)) == "https://wa.me/" + WhatsappNumber
    ensures Query(WhatsappUrl(encode)) == Some("text=" + encode(WhatsappMessage))
    ensures QueryValue(WhatsappUrl(encode), "text") == Some(encode(WhatsappMessage))
  {
    var head := "https://wa.me/" + WhatsappNumber;
    assert '#' !in head && '?' !in head;
    assert "?text=" == "?" + "text" + "=";
    assert "text" + "=" == "text=";
    assert WhatsappUrl(encode) == head + "?" + "text" + "=" + encode(WhatsappMessage);
    ReadBackTemplate(head, "text", encode(WhatsappMessage));
  }

  /** Decoding the `text` parameter of the link gives back the message
      unchanged, for any decoder that inverts the encoder on it. */
  lemma MessageRoundTrip(encode: string -> string, decode: string -> string)
    requires '#' !in encode(WhatsappMessage) && '&' !in encode(WhatsappMessage)
    requires decode(encode(WhatsappMessage)) == WhatsappMessage
    ensures var v := QueryValue(WhatsappUrl(encode), "text");
      v.Some? && decode(v.value) == WhatsappMessage
  {
    UrlReadsBack(encode);
  }
}
