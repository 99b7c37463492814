# Class-name composition of the DIT portfolio page

This project models the only behaviour in the portfolio site's source that is not
static markup. That behaviour has three parts:

- **`cn`**, the class-name composer. It keeps the truthy arguments
  (`filter(Boolean)`) and joins them with one space (`join(" ")`).
- **The styled primitives.** `Button` has a variant table and a size table.
  `Badge` has a variant table. `Card` and `CardContent` each have one fixed class
  string. Each of them passes base classes, the variant fragment, the size
  fragment (Button only) and the caller's `className` to `cn`, in that order.
  The page (`src/components/HomePage.tsx`) keeps its own inline copies of
  `Button` and `Badge`. The reusable ones live in `src/components/ui/`.
- **The WhatsApp deep link.** It is
  `"https://wa.me/" + number + "?text=" + encodeURIComponent(message)`.

The model is made only of functions and lemmas, because the source is made only
of expressions: it has no loops and no mutable state. Two reference
definitions give the composed strings a meaning against which they are checked:

- `TokenList.Tokens` is the whitespace-separated token sequence of a `class`
  attribute: the tokens between runs of ASCII whitespace, duplicates kept.
- `UrlQuery` is how a URL is read back: the fragment starts at the first `#`,
  the query follows the first `?`, and the query holds `&`-separated
  `name=value` pairs.

Modules:

- `optional.dfy`: the `Option` type for omitted props.
- `token_list.dfy`: the token sequence of a class attribute and its lemmas.
- `class_names.dfy`: `cn` and its properties.
- `ui_button.dfy` and `ui_badge.dfy`: the two primitives.
- `url_query.dfy`: URL read-back.
- `home_page.dfy`: the page's inline components, the cards and the WhatsApp link.

Three behaviours of the code are easy to misread. The model states them as the code has them:

- `cn` keeps the boolean `true`, and `join` writes it as the text `"true"`. So
  not only strings get through. `ClassNames.CnSingle` states this.
- The output of `cn` is free of doubled or edge spaces only when every kept
  fragment is itself well spaced. Non-empty fragments without edge spaces are
  not enough: a fragment `"a  b"` keeps its doubled space. `ClassNames.CnWellSpaced`
  assumes exactly that each kept fragment is well spaced.
- The phone number in the link keeps its leading `+`. It is not digits only.

## Model

| member | source | states |
|---|---|---|
| `ClassNames.Cn` | src/components/HomePage.tsx:7-9 | the result is empty exactly when no argument is truthy; no arguments give `""` |
| `ClassNames.Truthy` | src/components/HomePage.tsx:8 | `filter(Boolean)` keeps a value exactly when `join` would write it as non-empty text and it is not `false` |
| `ClassNames.ToText` | src/components/HomePage.tsx:8 | `join` writes every truthy argument as non-empty text (`true` as `"true"`) |
| `ClassNames.FromOptional` | src/components/HomePage.tsx:7 | an optional `className` becomes a truthy argument exactly when it is present and non-empty, and `join` writes it as itself |
| `ClassNames.Filter` | src/components/HomePage.tsx:8 | `filter(Boolean)` keeps only truthy values and never grows the list |
| `ClassNames.FilterAppend` | src/components/HomePage.tsx:8 | filtering distributes over concatenation, so the input order is kept |
| `ClassNames.FilterCounts` | src/components/HomePage.tsx:8 | each truthy value is kept as often as it occurs; `null`, `undefined`, `false` and `""` are dropped entirely |
| `ClassNames.FilterEmpty` | src/components/HomePage.tsx:8 | nothing is left exactly when no argument is truthy |
| `ClassNames.FilterIdentity` | src/components/HomePage.tsx:8 | the filter changes nothing exactly when every argument is truthy |
| `ClassNames.Texts` | src/components/HomePage.tsx:8 | `join` writes each kept value as its own text, one text per value, in order |
| `ClassNames.Join` | src/components/HomePage.tsx:8 | joining no parts gives `""`; otherwise the result begins with the first part |
| `ClassNames.JoinEndsWithLast` | src/components/HomePage.tsx:8 | a join of one or more parts ends with the last part |
| `ClassNames.JoinAppend` | src/components/HomePage.tsx:8 | joining a concatenation puts exactly one separator between the halves, and none when a half is empty |
| `ClassNames.JoinOfNonEmpty` | src/components/HomePage.tsx:8 | joining non-empty parts gives `""` only for no parts |
| `ClassNames.JoinWellSpaced` | src/components/HomePage.tsx:8 | joining non-empty, well-spaced parts with one space gives a well-spaced string |
| `ClassNames.JoinTokens` | src/components/HomePage.tsx:8 | the token sequence of a space-joined string is the concatenation of the parts' token sequences |
| `ClassNames.CnAppend` | src/components/HomePage.tsx:7-9 | `cn(a ++ b)` is `cn(a)` and `cn(b)` joined by one space, and an empty side adds no space |
| `ClassNames.CnLast` | src/components/HomePage.tsx:7-9 | a truthy last argument is the last space-separated segment |
| `ClassNames.CnFirst` | src/components/HomePage.tsx:7-9 | a truthy first argument begins the result |
| `ClassNames.CnSingle` | src/components/HomePage.tsx:8 | one non-empty string comes back unchanged; a lone `true` gives `"true"` |
| `ClassNames.CnWellSpaced` | src/components/HomePage.tsx:8 | if every kept fragment is well spaced, the result has no leading, trailing or doubled spaces |
| `ClassNames.CnTokens` | src/components/HomePage.tsx:7-9 | the token sequence of the result is the token sequences of the kept fragments, in input order |
| `ClassNames.CnRoundTrip` | src/components/HomePage.tsx:7-9 | if every kept fragment is one class name, reading the token sequence back gives exactly the kept fragments, in order |
| `ClassNames.CnExample` | src/components/HomePage.tsx:7-9 | `cn("base", false, "variant-x", undefined, "override-y")` is `"base variant-x override-y"` |
| `ClassNames.CnOfOptional` | src/components/HomePage.tsx:8 | `cn` of a lone optional class name is that name, or `""` when it is absent |
| `ClassNames.CnCons` | src/components/HomePage.tsx:8 | a non-empty leading fragment is followed by one space only when the rest is non-empty |
| `ClassNames.CnOne` | src/components/HomePage.tsx:40 | `cn(fixed, className)` is the fixed string plus `" " + className` only when `className` is non-empty |
| `ClassNames.CnTwo` | src/components/ui/badge.tsx:20 | `cn(base, variant, className)` is `base + " " + variant`, plus the override suffix |
| `ClassNames.CnThree` | src/components/ui/button.tsx:26 | `cn(base, variant, size, className)` is the three single-spaced, plus the override suffix |
| `ClassNames.OverrideSuffix` | src/components/HomePage.tsx:8 | an absent or empty `className` adds nothing; otherwise it adds one space and the class name |
| `ClassNames.TokensWithOverride` | src/components/HomePage.tsx:8 | the override suffix adds exactly the override's class names to the end of the token sequence |
| `ClassNames.EndsWithOverride` | src/components/HomePage.tsx:8 | a non-empty override is the final segment, preceded by one space |
| `ClassNames.TokensTwo` | src/components/ui/badge.tsx:20 | the token sequence of base, variant and override is their token sequences in that order |
| `ClassNames.TokensThree` | src/components/ui/button.tsx:26 | the token sequence of base, variant, size and override is their token sequences in that order |
| `UiButton.VariantClasses` | src/components/ui/button.tsx:14-18 | the `default`, `outline` and `ghost` keys each have a non-empty entry, so lookup is total and `cn` never drops it |
| `UiButton.SizeClasses` | src/components/ui/button.tsx:20-24 | the `default`, `sm` and `lg` keys each have a non-empty entry, so lookup is total and `cn` never drops it |
| `UiButton.EffectiveVariant` | src/components/ui/button.tsx:10 | an omitted `variant` resolves to `default`; a given one is kept |
| `UiButton.EffectiveSize` | src/components/ui/button.tsx:10 | an omitted `size` resolves to `default`; a given one is kept |
| `UiButton.ClassName` | src/components/ui/button.tsx:10-26 | the output is base, variant, size and override, single-spaced in that order, with omitted keys resolved to `default` and an absent override adding nothing; the token sequence is the four token sequences in the same order |
| `UiButton.StartsWithBase` | src/components/ui/button.tsx:11-26 | the output and its token sequence always start with the base classes |
| `UiButton.DefaultsApply` | src/components/ui/button.tsx:10 | an omitted `variant` gives the same output as `variant: "default"` with `size` unchanged, and an omitted `size` the same as `size: "default"` with `variant` unchanged |
| `UiButton.WithoutOverride` | src/components/ui/button.tsx:26 | with no `className`, the output is exactly `base + " " + variants[v] + " " + sizes[s]` |
| `UiButton.OverrideLast` | src/components/ui/button.tsx:26 | a non-empty `className` is the final segment, after one space |
| `UiButton.OverrideClassesLast` | src/components/ui/button.tsx:26 | the class names of `className` are the last entries of the token sequence |
| `UiButton.OutlineLarge` | src/components/ui/button.tsx:14-26 | variant `outline`, size `lg` and no override give base, the outline fragment and the lg fragment, single-spaced |
| `UiBadge.VariantClasses` | src/components/ui/badge.tsx:13-18 | the `default`, `secondary`, `destructive` and `outline` keys each have a non-empty entry |
| `UiBadge.EffectiveVariant` | src/components/ui/badge.tsx:9 | an omitted `variant` resolves to `default`; a given one is kept |
| `UiBadge.ClassName` | src/components/ui/badge.tsx:9-20 | the output is base, variant and override, single-spaced in that order, with no size part, an omitted variant resolved to `default` and an absent override adding nothing; the token sequence is the three token sequences in order |
| `UiBadge.StartsWithBase` | src/components/ui/badge.tsx:10-20 | the output and its token sequence always start with the base classes |
| `UiBadge.DefaultsApply` | src/components/ui/badge.tsx:9 | an omitted `variant` gives the same output as `variant: "default"` |
| `UiBadge.WithoutOverride` | src/components/ui/badge.tsx:20 | with no `className`, the output is exactly `base + " " + variants[v]` |
| `UiBadge.OverrideLast` | src/components/ui/badge.tsx:20 | a non-empty `className` is the final segment, after one space |
| `UiBadge.OverrideClassesLast` | src/components/ui/badge.tsx:20 | the class names of `className` are the last entries of the token sequence |
| `HomePage.ButtonVariantClasses` | src/components/HomePage.tsx:22-26 | the page's own Button variant table agrees entry by entry with the primitive's |
| `HomePage.ButtonSizeClasses` | src/components/HomePage.tsx:28-32 | the page's own Button size table agrees entry by entry with the primitive's |
| `HomePage.ButtonClassName` | src/components/HomePage.tsx:17-36 | the inline Button composes exactly as `UiButton.ClassName`, so base comes first, defaults apply and the override is last |
| `HomePage.BadgeVariantClasses` | src/components/HomePage.tsx:56-61 | the page's own Badge variant table agrees entry by entry with the primitive's |
| `HomePage.BadgeClassName` | src/components/HomePage.tsx:52-64 | the inline Badge composes exactly as `UiBadge.ClassName` |
| `HomePage.CardClassName` | src/components/HomePage.tsx:39-41 | the output is `"rounded-lg border bg-white shadow-sm"` plus the override suffix; the token sequence is the fixed classes followed by the override's |
| `HomePage.CardContentClassName` | src/components/HomePage.tsx:43-45 | the output is `"p-6 pt-0"` plus the override suffix; the token sequence is the fixed classes followed by the override's |
| `HomePage.CardsBeginWithFixedClasses` | src/components/HomePage.tsx:39-45 | both cards always begin with their fixed strings; without `className` they are exactly those strings |
| `HomePage.WhatsappUrl` | src/components/HomePage.tsx:68-70 | the link is the fixed prefix `https://wa.me/+573208738174?text=` followed by exactly the encoded message, nothing before or after |
| `HomePage.NumberKeepsPlus` | src/components/HomePage.tsx:68 | the phone number is a `+` followed only by digits |
| `HomePage.UrlReadsBack` | src/components/HomePage.tsx:68-70 | read back as a URL, the link is `https://wa.me/+573208738174` with query `text=<encoded message>`, and its `text` value is the encoded message |
| `HomePage.MessageRoundTrip` | src/components/HomePage.tsx:68-70 | decoding the link's `text` value with an inverse of the encoder gives the message back unchanged |

## Left out

- JSX rendering, `React.forwardRef`, ref forwarding, `displayName` and the `{...props}` spread are left out. They are framework plumbing. Only the `className` string is modelled.
- `scrollToSection` is left out. It is browser I/O: a DOM lookup and `scrollIntoView`.
- The `window.open` click handlers are left out. They are browser side effects.
- `HomePage.WhatsappUrl` takes `encodeURIComponent` as the parameter `encode`, because its definition is not part of the source. Its percent-encoding is not modelled. The lemmas about the link assume only what they name: the encoded message holds no `#` or `&`, and a decoder inverts the encoder on the message.
- `src/lib/utils`, which the `ui/` primitives import `cn` from, is not part of this model. They are modelled with the `cn` of `src/components/HomePage.tsx:7-9`.
- The static page content is left out: copy, images, the projects list, its `.map`, and the `project.image || "/placeholder.svg"` fallback.
- A key outside a declared enum is left out. A JavaScript caller that bypasses the types would get `undefined` from the table, and `cn` would drop it. The Dafny enums rule this out.
- The meaning of CSS classes is left out. Only the strings and their order are modelled.
- The de-duplicated class set a browser presents (`DOMTokenList`) and the CSS cascade are left out. The page passes duplicate classes, as with `text-white` at `src/components/HomePage.tsx:114-116` and `px-8` at `src/components/HomePage.tsx:148-151`. The model speaks of the token sequence as written. That the override's tokens come last says nothing about which rule wins: stylesheet order settles ties between classes.
- Strings are sequences of Unicode scalar values. JavaScript's UTF-16 code units are not modelled. No modelled operation depends on the difference.
