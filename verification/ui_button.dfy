/** The `Button` primitive of `src/components/ui/button.tsx`: a base class
    string, a variant fragment and a size fragment, then the caller's
    `className`, composed by `cn`. */
module UiButton {
  import opened Optional
  import opened TokenList
  import opened ClassNames

  /** The declared `variant` keys. */
  datatype Variant = Default | Outline | Ghost

  /** The declared `size` keys. */
  datatype Size = Default | Sm | Lg

  /** The styling props a caller may pass; each may be omitted. */
  datatype ButtonProps = ButtonProps(className: Option<string>, variant: Option<Variant>, size: Option<Size>)

  const BaseClasses: string :=
    "inline-flex items-center justify-center rounded-md text-sm font-medium transition-colors focus-visible:outline-none focus-visible:ring-2 disabled:opacity-50 disabled:pointer-events-none"

  /** The `variants` table: every declared key has a non-empty entry, so
      `cn` never drops it. */
  function VariantClasses(v: Variant): (r: string)
    ensures r != ""
  {
    match v
    case Default => "bg-blue-600 text-white hover:bg-blue-700"
    case Outline => "border border-gray-300 hover:bg-gray-100 text-gray-900"
    case Ghost => "hover:bg-gray-100 text-gray-900"
  }

  /** The `sizes` table: every declared key has a non-empty entry, so `cn`
      never drops it. */
  function SizeClasses(s: Size): (r: string)
    ensures r != ""
  {
    match s
    case Default => "h-10 py-2 px-4"
    case Sm => "h-9 px-3"
    case Lg => "h-11 px-8"
  }

  /** The variant in effect: an omitted variant means "default". */
  function EffectiveVariant(props: ButtonProps): (v: Variant)
    ensures props.variant.None? ==> v == Variant.Default
    ensures props.variant.Some? ==> v == props.variant.value
  {
    props.variant.GetOr(Variant.Default)
  }

  /** The size in effect: an omitted size means "default". */
  function EffectiveSize(props: ButtonProps): (s: Size)
    ensures props.size.None? ==> s == Size.Default
    ensures props.size.Some? ==> s == props.size.value
  {
    props.size.GetOr(Size.Default)
  }

  /** The `className` the button renders with: base, variant fragment, size
      fragment and caller override, in that order, single-spaced, with an
      absent or empty override adding nothing. Its token sequence is the
      token sequences of the four pieces in the same order. */
  function ClassName(props: ButtonProps): (r: string)
    ensures r == BaseClasses + " " + VariantClasses(EffectiveVariant(props)) + " "
                 + SizeClasses(EffectiveSize(props)) + OverrideSuffix(props.className)
    ensures Tokens(r) == Tokens(BaseClasses) + Tokens(VariantClasses(EffectiveVariant(props)))
                         + Tokens(SizeClasses(EffectiveSize(props))) + Tokens(props.className.GetOr(""))
  {
    var v, s := VariantClasses(EffectiveVariant(props)), SizeClasses(EffectiveSize(props));
    CnThree(BaseClasses, v, s, props.className);
    TokensThree(BaseClasses, v, s, props.className);
    Cn([Str(BaseClasses), Str(v), Str(s), FromOptional(props.className)])
  }

  /** The output always starts with the base classes, and its token
      sequence always starts with the base class names. */
  lemma StartsWithBase(props: ButtonProps)
    ensures BaseClasses <= ClassName(props)
    ensures Tokens(BaseClasses) <= Tokens(ClassName(props))
  {
    var v, s := VariantClasses(EffectiveVariant(props)), SizeClasses(EffectiveSize(props));
    PrefixOfFive(BaseClasses, " " + v, " ", s, OverrideSuffix(props.className));
    assert BaseClasses + " " + v == BaseClasses + (" " + v);
    PrefixOfFour(Tokens(BaseClasses), Tokens(v), Tokens(s), Tokens(props.className.GetOr("")));
  }

  /** An omitted variant or size behaves exactly as the "default" key. */
  lemma DefaultsApply(props: ButtonProps)
    ensures props.variant.None? ==> ClassName(props) == ClassName(props.(variant := Some(Variant.Default)))
    ensures props.size.None? ==> ClassName(props) == ClassName(props.(size := Some(Size.Default)))
    ensures ClassName(props) == ClassName(ButtonProps(props.className, Some(EffectiveVariant(props)), Some(EffectiveSize(props))))
  {
  }

  /** Without a caller `className` the output is the base, variant and size
      fragments separated by single spaces. */
  lemma WithoutOverride(props: ButtonProps)
    requires props.className.None?
    ensures ClassName(props) == BaseClasses + " " + VariantClasses(EffectiveVariant(props)) + " "
                                + SizeClasses(EffectiveSize(props))
  {
    assert OverrideSuffix(props.className) == "";
  }

  /** A non-empty caller `className` is the final space-separated segment. */
  lemma OverrideLast(props: ButtonProps)
    requires props.className.Some? && props.className.value != ""
    ensures var r, c := ClassName(props), props.className.value;
      |r| > |c| && r[|r| - |c| - 1] == ' ' && r[|r| - |c|..] == c
  {
    var v, s := VariantClasses(EffectiveVariant(props)), SizeClasses(EffectiveSize(props));
    var front, c := BaseClasses + " " + v + " " + s, props.className.value;
    assert ClassName(props) == front + OverrideSuffix(Some(c));
    EndsWithOverride(front, c);
  }

  /** The class names of a caller `className` are the last entries of the
      token sequence. */
  lemma OverrideClassesLast(props: ButtonProps)
    requires props.className.Some?
    ensures var t, ct := Tokens(ClassName(props)), Tokens(props.className.value);
      |t| >= |ct| && t[|t| - |ct|..] == ct
  {
    var v, s := VariantClasses(EffectiveVariant(props)), SizeClasses(EffectiveSize(props));
    SuffixOfTwo(Tokens(BaseClasses) + Tokens(v) + Tokens(s), Tokens(props.className.value));
  }

  /** Variant "outline" with size "lg" and no override. */
  lemma OutlineLarge()
    ensures ClassName(ButtonProps(None, Some(Outline), Some(Lg)))
         == BaseClasses + " " + "border border-gray-300 hover:bg-gray-100 text-gray-900" + " " + "h-11 px-8"
  {
    WithoutOverride(ButtonProps(None, Some(Outline), Some(Lg)));
  }
}
