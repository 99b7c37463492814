/** The `Badge` primitive of `src/components/ui/badge.tsx`: a base class
    string and a variant fragment, then the caller's `className`, composed
    by `cn`. It has no size option. */
module UiBadge {
  import opened Optional
  import opened TokenList
  import opened ClassNames

  /** The declared `variant` keys. */
  datatype Variant = Default | Secondary | Destructive | Outline

  /** The styling props a caller may pass; each may be omitted. */
  datatype BadgeProps = BadgeProps(className: Option<string>, variant: Option<Variant>)

  const BaseClasses: string :=
    "inline-flex items-center rounded-full border px-2.5 py-0.5 text-xs font-semibold transition-colors"

  /** The `variants` table: every declared key has a non-empty entry, so
      `cn` never drops it. */
  function VariantClasses(v: Variant): (r: string)
    ensures r != ""
  {
    match v
    case Default => "border-transparent bg-blue-600 text-white hover:bg-blue-700"
    case Secondary => "border-transparent bg-gray-100 text-gray-900 hover:bg-gray-200"
    case Destructive => "border-transparent bg-red-600 text-white hover:bg-red-700"
    case Outline => "text-gray-900 border-gray-300"
  }

  /** The variant in effect: an omitted variant means "default". */
  function EffectiveVariant(props: BadgeProps): (v: Variant)
    ensures props.variant.None? ==> v == Variant.Default
    ensures props.variant.Some? ==> v == props.variant.value
  {
    props.variant.GetOr(Variant.Default)
  }

  /** The `className` the badge renders with: base, variant fragment and
      caller override, in that order, single-spaced, with an absent or
      empty override adding nothing. Its token sequence is the token sequences of
      the three pieces in the same order. */
  function ClassName(props: BadgeProps): (r: string)
    ensures r == BaseClasses + " " + VariantClasses(EffectiveVariant(props)) + OverrideSuffix(props.className)
    ensures Tokens(r) == Tokens(BaseClasses) + Tokens(VariantClasses(EffectiveVariant(props)))
                         + Tokens(props.className.GetOr(""))
  {
    var v := VariantClasses(EffectiveVariant(props));
    CnTwo(BaseClasses, v, props.className);
    TokensTwo(BaseClasses, v, props.className);
    Cn([Str(BaseClasses), Str(v), FromOptional(props.className)])
  }

  /** The output always starts with the base classes, and its token
      sequence always starts with the base class names. */
  lemma StartsWithBase(props: BadgeProps)
    ensures BaseClasses <= ClassName(props)
    ensures Tokens(BaseClasses) <= Tokens(ClassName(props))
  {
    var v := VariantClasses(EffectiveVariant(props));
    PrefixOfThree(BaseClasses, " " + v, OverrideSuffix(props.className));
    assert BaseClasses + " " + v == BaseClasses + (" " + v);
    PrefixOfThree(Tokens(BaseClasses), Tokens(v), Tokens(props.className.GetOr("")));
  }

  /** An omitted variant behaves exactly as the "default" key. */
  lemma DefaultsApply(props: BadgeProps)
    ensures props.variant.None? ==> ClassName(props) == ClassName(props.(variant := Some(Variant.Default)))
    ensures ClassName(props) == ClassName(BadgeProps(props.className, Some(EffectiveVariant(props))))
  {
  }

  /** Without a caller `className` the output is the base and variant
      fragments separated by one space. */
  lemma WithoutOverride(props: BadgeProps)
    requires props.className.None?
    ensures ClassName(props) == BaseClasses + " " + VariantClasses(EffectiveVariant(props))
  {
    assert OverrideSuffix(props.className) == "";
  }

  /** A non-empty caller `className` is the final space-separated segment. */
  lemma OverrideLast(props: BadgeProps)
    requires props.className.Some? && props.className.value != ""
    ensures var r, c := ClassName(props), props.className.value;
      |r| > |c| && r[|r| - |c| - 1] == ' ' && r[|r| - |c|..] == c
  {
    var v := VariantClasses(EffectiveVariant(props));
    var front, c := BaseClasses + " " + v, props.className.value;
    assert ClassName(props) == front + OverrideSuffix(Some(c));
    EndsWithOverride(front, c);
  }

  /** The class names of a caller `className` are the last entries of the
      token sequence. */
  lemma OverrideClassesLast(props: BadgeProps)
    requires props.className.Some?
    ensures var t, ct := Tokens(ClassName(props)), Tokens(props.className.value);
      |t| >= |ct| && t[|t| - |ct|..] == ct
  {
    var v := VariantClasses(EffectiveVariant(props));
    SuffixOfTwo(Tokens(BaseClasses) + Tokens(v), Tokens(props.className.value));
  }
}
