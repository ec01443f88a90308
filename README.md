# react-pixel-ui, modelled in Dafny

react-pixel-ui gives an element a pixel-art look by repainting its
decoration on a canvas. The background, gradients, borders, rounded corners
and border images are drawn at a reduced resolution. The result is then
stretched back over the element with smoothing off, and its text stays as
it was. This project models the rule code of that pipeline and proves
properties of the model. Two generations of the code are covered.

- **The older engine** in `packages/core` has several parts:
  - a declaration parser: lengths, hex, `rgb()` and named colours, linear
    gradients, `prop: value;` lists and property objects;
  - a low-resolution background renderer, with its size arithmetic, border
    scaling, dash choice and rounded path;
  - the canvas helpers of `canvas.ts` and `utils.ts`;
  - `pixelateCSS` and `createPixelatedStyle`;
  - the simple engine (`pixelizeCSS`, `createPixelizedStyle`);
  - in `packages/react`, the string-keyed cache used by `useCachedPixelCSS`.
- **The newer renderer** in `packages/use-pixelated-css` has these parts:
  - the unit resolver;
  - background layers assembled from list-valued style maps, with
    `background-size`, `background-position` and `background-repeat`
    (including `space` and `round`) as in CSS Backgrounds and Borders
    Level 3;
  - linear and radial gradient parameters as in CSS Images Level 3;
  - clip boxes;
  - border precedence of logical over physical over shorthand;
  - nine-slice border images;
  - per-side border strokes;
  - the rounded clip path;
  - `rectSize` and `boxStyles`;
  - the older `pixelate` of `pixel.ts`.
- **Colour conversion:** the hex and `rgb()` conversions of
  `packages/pixel-ui/src/util/color.ts`.

How the code is rendered in Dafny:

- **JavaScript numbers** are the datatype `Js.Num`: a finite real, `NaN`
  or an infinity. The arithmetic the code relies on is spelled out:
  `parseInt`, `parseFloat`, `Math.round`, `||` on numbers, and `x / 0`.
- **Regular expressions** become explicit recognisers. Each follows the
  leftmost, greedy semantics of the pattern it replaces.
- **A canvas** is the class `Canvas2D.Context`. It holds its size and the
  log of the calls made on it. A drawing method states the calls it
  appends and that the canvas keeps its size. Image payloads are images
  described by their own call logs.
- **Loops** over layers, tiles, slices and sides are methods with loop
  invariants. Each is proved against a specification function, and the
  properties of the code are lemmas about those functions.
- **The cache** is the class `PixelCaching.PixelCache`. It holds its
  entries and their insertion order.
- **The host environment** enters as parameters. This covers the
  element's and viewport's sizes and font sizes, computed style maps,
  blend-mode names, trigonometry, number-to-text digits after the point,
  image encoding, loaded pictures, and whether a canvas yields a context.

Where the documented design and the code differ, the model follows the
code:

- Radii are never clamped to the box.
- `to top` gives an angle of 180 in the newer gradient code.
- Layers are composited in list order.
- The low-resolution size is a plain ceiling, which is 0 for an empty
  side.

## Model

| member | source | states |
|---|---|---|
| CssUnit.MatchLength | packages/use-pixelated-css/src/util/cssUnit.ts:4-5 | a match splits the text into a non-empty numeral of digits and dots followed by lower-case letters or `%` |
| CssUnit.PixelUnit | packages/use-pixelated-css/src/util/cssUnit.ts:1-26 | empty text and text that does not match resolve to 0 |
| CssUnit.NumeralValue | packages/use-pixelated-css/src/util/cssUnit.ts:7 | parseFloat of a matched numeral is non-negative, or NaN exactly when it starts with a dot not followed by a digit |
| CssUnit.PixelUnitNonNegative | packages/use-pixelated-css/src/util/cssUnit.ts:4-24 | with non-negative page measurements the resolved length is never negative (NaN aside) |
| CssUnit.PixelUnitNaN | packages/use-pixelated-css/src/util/cssUnit.ts:4-7 | the length is NaN exactly for a matched numeral such as `.` or `..5` |
| CssUnit.RejectedLengths | packages/use-pixelated-css/src/util/cssUnit.ts:4-5 | `-4px`, `4PX` and `4 px` all resolve to 0 |
| CssUnit.NumberThenUnit | packages/use-pixelated-css/src/util/cssUnit.ts:4-10 | whole digits followed by a unit are resolved by the unit switch with the digits' value |
| CssUnit.ResolveRules | packages/use-pixelated-css/src/util/cssUnit.ts:10-25 | px, no unit and unknown units keep the number; rem/em scale by root/parent font size; %, vw, vh take n/100 of clientWidth, innerWidth, innerHeight |
| CssParser.MatchUnit | packages/core/src/css-parser.ts:15 | a match is an optionally signed decimal numeral, alone or followed by one of the six unit names |
| CssParser.ParseUnit | packages/core/src/css-parser.ts:10-24 | a number is that value in px; text that does not match is 0px; a match keeps its unit |
| CssParser.ParseUnitFinite | packages/core/src/css-parser.ts:15-23 | every text parses to a finite value |
| CssParser.ParseUnitDigits | packages/core/src/css-parser.ts:15-23 | digits followed by a unit parse to that value in that unit; bare digits parse to px |
| CssParser.ParseUnitNegative | packages/core/src/css-parser.ts:15-23 | a leading minus is accepted and negates the value |
| CssParser.HexColor | packages/core/src/css-parser.ts:31-47 | a hex body is a colour exactly when it has 3 or 6 characters, always opaque |
| CssParser.ShortHexDoubles | packages/core/src/css-parser.ts:33-39 | `#abc` parses the same as `#aabbcc`, with alpha 255 |
| CssParser.LongHexChannels | packages/core/src/css-parser.ts:40-46 | each pair of hex digits is one channel, read base 16 |
| CssParser.HexFirst | packages/core/src/css-parser.ts:31-48 | a `#` colour with a 3- or 6-character body is read as hex before any other rule |
| CssParser.ChannelRule | packages/core/src/css-parser.ts:55-57 | a missing or falsy (0, NaN) channel is 0, any other is rounded |
| CssParser.RgbDefaults | packages/core/src/css-parser.ts:55-58 | missing or zero channels become 0 and a missing or zero alpha becomes 255 |
| CssParser.CommaNumbers | packages/core/src/css-parser.ts:53 | one number per comma-separated part, so one more than there are commas; each is parseFloat of the trimmed part, and a text without a comma is one number |
| CssParser.RgbNeedsBackslash | packages/core/src/css-parser.ts:51 | without a backslash in the text the rgb pattern never matches, and the text goes to the named-colour table |
| CssParser.RgbTextIsBlack | packages/core/src/css-parser.ts:51-72 | plain `rgb(...)` text without a backslash parses as opaque black |
| CssParser.NamedColorsIgnoreCase | packages/core/src/css-parser.ts:63-72 | names are looked up without regard to case, and an unknown name is opaque black |
| CssParser.TransparentIsClear | packages/core/src/css-parser.ts:64 | `transparent` has alpha 0 |
| CssParser.GradientHead | packages/core/src/css-parser.ts:86-99 | the first part is consumed exactly when it holds `deg` or is `to right`/`to bottom`/`to left`; otherwise the angle is 0 |
| CssParser.ToKeywordAngles | packages/core/src/css-parser.ts:90-99 | `to right` is 90, `to bottom` 180, `to left` 270, and `to top` is not consumed (angle 0) |
| CssParser.StopPositions | packages/core/src/css-parser.ts:104 | with n stops the positions run evenly from 0 to 1, strictly increasing; a single stop is at 0/0, NaN |
| CssParser.EvenStops | packages/core/src/css-parser.ts:102-106 | one stop per colour text, parsed after trimming; two or more stops run from 0 at the first to 1 at the last in strictly increasing steps, and a lone stop is at 0/0, which is NaN |
| CssParser.GradientFromParams | packages/core/src/css-parser.ts:82-112 | every part after the consumed head becomes a stop |
| CssParser.GradientNeedsBackslash | packages/core/src/css-parser.ts:79-80 | without a backslash in the text no gradient is parsed |
| CssParser.NonEmpty | packages/core/src/css-parser.ts:122 | `filter(Boolean)` keeps only the non-empty rules |
| CssParser.LastDeclared | packages/core/src/css-parser.ts:124-184 | the value a field ends with is non-empty, and a background image holds `gradient` |
| CssParser.FontWeightOf | packages/core/src/css-parser.ts:158-164 | `bold` and `normal` are kept by name, anything else becomes a numeric weight |
| CssParser.FontFamilyOf | packages/core/src/css-parser.ts:154 | every single and double quote is removed |
| CssParser.StyleOf | packages/core/src/css-parser.ts:118-187 | a parsed style never has a border, and a padding comes from the last padding declaration |
| CssParser.StyleStep | packages/core/src/css-parser.ts:124-184 | one more declaration updates the style as the switch assigns it |
| CssParser.Declare | packages/core/src/css-parser.ts:126-183 | one pass of the loop body assigns the field the property names |
| CssParser.ParseRules | packages/core/src/css-parser.ts:124-184 | the loop over the rules yields the style the declarations specify |
| CssParser.ParseCSS | packages/core/src/css-parser.ts:118-187 | `parseCSS` gives the style of the declarations in the text |
| CssParser.RulesConcat | packages/core/src/css-parser.ts:122 | the rules of `a;b` are the rules of `a` followed by those of `b` |
| CssParser.LaterDeclarationsWin | packages/core/src/css-parser.ts:124-184 | a field declared in a later list overrides the earlier one |
| CssParser.LaterRulesWin | packages/core/src/css-parser.ts:118-187 | in `a;b` a property declared in `b` takes `b`'s value |
| CssParser.IgnoredDeclaration | packages/core/src/css-parser.ts:126-183 | a declaration that names no known field changes nothing |
| CssParser.UnknownProperties | packages/core/src/css-parser.ts:128-183 | `background`, `border`, `margin` and the empty name are ignored |
| CssParser.EmptyCss | packages/core/src/css-parser.ts:118-122 | empty text and a lone `;` have no rules and give the empty style |
| CssParser.FirstNotText | packages/core/src/css-parser.ts:203-210 | finds a string-valued property that holds a number, or shows there is none |
| CssParser.PropsStyle | packages/core/src/css-parser.ts:192-226 | a converted style never has a border |
| CssParser.ConvertProps | packages/core/src/css-parser.ts:192-226 | the chain of ifs yields the style of the specification function |
| CssParser.ConvertChecked | packages/core/src/css-parser.ts:192-203 | the ifs up to `fontFamily` either stop with the TypeError `PropsStyle` gives, or leave exactly the given width, height, colours, gradient, font size and family set, with no key holding a number |
| CssParser.ConvertUnchecked | packages/core/src/css-parser.ts:204-223 | the remaining ifs set exactly the font weight, text alignment, border radius and the four equal paddings that were given |
| CssParser.NumberWeight | packages/core/src/css-parser.ts:210 | `parseInt(n.toString())` of a numeric weight: the integer part towards zero when the number prints plainly; only its first significant digit, with the sign, when it prints in exponent form; NaN for NaN and the infinities |
| CssParser.ExponentWeights | packages/core/src/css-parser.ts:210 | `1e-7` and `1e21` give the weight 1, and `-2e22` gives -2 |
| CssParser.CssPropertiesToPixelStyle | packages/core/src/css-parser.ts:192-226 | `cssPropertiesToPixelStyle` with the standard value readers; when it throws, the TypeError names one of the four keys read as text (`backgroundColor`, `backgroundImage`, `color`, `fontFamily`) |
| CssParser.PropsFailure | packages/core/src/css-parser.ts:203-210 | the conversion throws exactly when a text property holds a non-text value |
| CssParser.FalsyPropsSkipped | packages/core/src/css-parser.ts:195-215 | a falsy property is skipped as if it were absent |
| BackgroundRenderer.UnitToPixelsRules | packages/core/src/background-renderer.ts:34-51 | px keeps the value, % takes a hundredth of the container, em and rem assume a 16px font |
| BackgroundRenderer.UnitToPixelsAgreesWithResolve | packages/core/src/background-renderer.ts:34-51 | with 16px fonts the core's unit conversion agrees with the newer renderer's unit switch |
| BackgroundRenderer.LowResCovers | packages/core/src/background-renderer.ts:63-64 | `ceil(size / pixelSize)` scaled back covers the size, overshoots it by less than one block, and a non-empty side keeps a pixel |
| BackgroundRenderer.AdjustedBorderWidthBounds | packages/core/src/background-renderer.ts:168-175 | the adjusted width is at least the scaled width and at least 0.5, unchanged from 2 up, 1 or 2 between 1 and 2, and adjusting twice changes nothing |
| BackgroundRenderer.AdjustedBorderWidthMonotone | packages/core/src/background-renderer.ts:168-175 | a wider border never gets a thinner adjusted stroke |
| BackgroundRenderer.AdjustWidth | packages/core/src/background-renderer.ts:168-175 | the reassigning code computes the adjusted width |
| BackgroundRenderer.BorderStrokeInside | packages/core/src/background-renderer.ts:199-202 | without a radius one rectangle is stroked half a line width in, so the stroke lies flush inside the canvas |
| BackgroundRenderer.BorderRadiusShrunk | packages/core/src/background-renderer.ts:191-198 | with a radius the stroked path starts at `max(0, r - s/2)`, inside the clip |
| BackgroundRenderer.RenderBorderLowRes | packages/core/src/background-renderer.ts:156-203 | the border drawing appends exactly the border commands and keeps the canvas size |
| BackgroundRenderer.GradientCentred | packages/core/src/background-renderer.ts:109-128 | the gradient line is centred on the canvas and keeps every stop at its position, in order |
| BackgroundRenderer.ClipLayerClips | packages/core/src/background-renderer.ts:74-78 | the low-resolution canvas is clipped exactly when a radius is given |
| BackgroundRenderer.BorderLayerStrokes | packages/core/src/background-renderer.ts:93-95 | a stroke is drawn exactly when a border of positive width is given |
| BackgroundRenderer.LowResLayers | packages/core/src/background-renderer.ts:56-98 | the whole low-resolution drawing clips iff a radius is given and strokes iff a positive border is given |
| BackgroundRenderer.CreateRoundedPath | packages/core/src/background-renderer.ts:134-151 | the path is the rounded rectangle with the same radius at every corner |
| BackgroundRenderer.RenderBackgroundToLowRes | packages/core/src/background-renderer.ts:56-98 | a fresh canvas of `ceil(size / pixelSize)` per side holding the clip, colour, gradient and border layers |
| BackgroundRenderer.DrawGradientLayer | packages/core/src/background-renderer.ts:88-90 | appends the gradient layer alone |
| BackgroundRenderer.DrawBorderLayer | packages/core/src/background-renderer.ts:93-95 | appends the border layer alone |
| BackgroundRenderer.DrawClipLayer | packages/core/src/background-renderer.ts:74-78 | appends the clip layer alone |
| BackgroundRenderer.DrawColorLayer | packages/core/src/background-renderer.ts:81-85 | appends the colour fill alone |
| BackgroundRenderer.PixelatedBackgroundSize | packages/core/src/background-renderer.ts:233-245 | the image has the requested size and holds one stretched copy of a canvas `ceil(side / p)` on each side |
| BackgroundRenderer.UpscaleToPixelated | packages/core/src/background-renderer.ts:210-228 | a fresh canvas of the target size with smoothing off and the small canvas drawn over all of it |
| BackgroundRenderer.RenderPixelatedBackground | packages/core/src/background-renderer.ts:233-245 | the image is the pixelated background of the style |
| BackgroundRenderer.ParseColorString | packages/core/src/background-renderer.ts:290-312 | every colour it reads is opaque |
| BackgroundRenderer.ParseColorStringHexOnly | packages/core/src/background-renderer.ts:290-312 | it agrees with the parser on `#rgb` and `#rrggbb` and reads everything else as opaque black |
| BackgroundRenderer.NamedColorIsBlack | packages/core/src/background-renderer.ts:310-311 | `red` is black here although the parser knows it |
| BackgroundRenderer.ParseGradientString | packages/core/src/background-renderer.ts:315-317 | a gradient exactly when a `linear-gradient(...)` group without `)` is found, read from its arguments |
| BackgroundRenderer.GradientArgs | packages/core/src/background-renderer.ts:319-340 | a linear gradient whose stops are all opaque |
| BackgroundRenderer.GradientArgsStops | packages/core/src/background-renderer.ts:320-334 | without `deg` the angle is 45 and every part is a stop, with it every later part is; stops run from 0 to 1 |
| BackgroundRenderer.TextStyleFields | packages/core/src/background-renderer.ts:260-284 | a border is read exactly when its text has at least two spaces, an image only when it names a gradient, a radius whenever given and in px |
| BackgroundRenderer.StyleFromText | packages/core/src/background-renderer.ts:260-284 | the field-by-field assignments build the specified style |
| BackgroundRenderer.CreatePixelatedBackgroundURL | packages/core/src/background-renderer.ts:250-287 | the image of the style read from the texts, 200 by 100 with pixel size 4 when omitted |
| RoundedPath.RoundedRectPath | packages/use-pixelated-css/src/render/clip/borderRadius.ts:12-39 | the path has eleven calls, opens with `beginPath` and a move to the end of the top-left curve, and ends with `closePath` |
| RoundedPath.RoundedRectVertices | packages/use-pixelated-css/src/render/clip/borderRadius.ts:26-37 | the path visits the eight points where edges meet corner curves, clockwise, and returns to the first; the four curve control points are the canvas corners |
| RoundedPath.PathThroughPoints | packages/core/src/background-renderer.ts:140-150 | the single-radius path of the core renderer visits its eight edge points in order and uses the four canvas corners as control points |
| RoundedPath.ZeroRadiiIsRectangle | packages/core/src/background-renderer.ts:140-150 | with every radius 0 the edge points are the canvas corners, so the path is the plain rectangle |
| RoundedPath.EdgePointsOnBorder | packages/use-pixelated-css/src/render/clip/borderRadius.ts:26-37 | when each radius fits the canvas, every edge point lies on the canvas border |
| Patterns.SpanLine | packages/use-pixelated-css/src/pixel.ts:77 | `.` in a regular expression matches up to the first line terminator and no further |
| Patterns.LastClose | packages/use-pixelated-css/src/render/background/backgroundGradient.ts:25 | the greedy group ends at the last `)`, with no `)` after it |
| Patterns.GroupAfter | packages/core/src/background-renderer.ts:316 | the captured group is followed by `)`; for `[^)]+` and `.*?` it holds no `)`; `[^)]+` captures at least one character; `.` never crosses a line terminator |
| Patterns.FindGroupFrom | packages/core/src/css-parser.ts:79 | a match found from a position is an occurrence of `head(group)` at or after that position |
| Patterns.FindGroup | packages/core/src/canvas.ts:41 | a match is an occurrence of `head(group)` somewhere in the text |
| Patterns.NoHeadNoGroup | packages/core/src/canvas.ts:41 | where `head(` never occurs, nothing matches |
| Patterns.WholeCall | packages/use-pixelated-css/src/render/background/backgroundGradient.ts:75 | a call `head(args)` whose arguments hold no `)` and no line terminator yields exactly its arguments, for each of the three group kinds |
| Color.Doubled | packages/pixel-ui/src/util/color.ts:3-11 | the expanded body is twice as long, each digit written twice in place |
| Color.Chunks | packages/pixel-ui/src/util/color.ts:17-18 | `.{1,2}` splits the body into pieces of one or two characters |
| Color.RgbOfHex | packages/pixel-ui/src/util/color.ts:1-21 | a converted colour reads `rgb(` … `)` |
| Color.HexToRgb | packages/pixel-ui/src/util/color.ts:1-21 | the imperative expansion with its reduce accumulator computes exactly `RgbOfHex` |
| Color.JoinDoubled | packages/pixel-ui/src/util/color.ts:4-10 | joining the pushed pairs gives the doubled digits |
| Color.ShortHexDoubled | packages/pixel-ui/src/util/color.ts:3-11 | a 3-digit colour converts like the 6-digit colour with each digit doubled |
| Color.BadLengthRejected | packages/pixel-ui/src/util/color.ts:13-15 | a colour whose body is neither 3 nor 6 characters is an error in both conversions |
| Color.SixDigitRgb | packages/pixel-ui/src/util/color.ts:17-20 | a 6-digit colour gives `rgb(` with the three pair values in decimal, joined by `, ` |
| Color.PairValues | packages/pixel-ui/src/util/color.ts:18-20 | each channel is the value of its two hex digits, high digit first, so six hex digits give channels below 256 |
| Color.RgbToColors | packages/pixel-ui/src/util/color.ts:23-32 | an error exactly when the text does not start with `rgb`; otherwise one number per comma-separated piece |
| Color.HexToColors | packages/pixel-ui/src/util/color.ts:34-36 | an invalid hex colour is an error |
| Color.WhiteShortAndLong | packages/pixel-ui/src/util/color.ts:34-36 | `#fff` and `#ffffff` both give [255, 255, 255] |
| Color.SixDigitColors | packages/pixel-ui/src/util/color.ts:34-36 | a 6-digit colour gives its three pair values, in order |
| Color.Hex2 | packages/pixel-ui/src/util/color.ts:38-41 | a channel below 256 is written as exactly two lowercase hex digits whose value is the channel |
| Color.IntToHexChannel | packages/pixel-ui/src/util/color.ts:38-41 | `intToHex` of an integer channel below 256 is that two-digit form |
| Color.ColorsToRgb | packages/pixel-ui/src/util/color.ts:43-45 | the text reads `rgb(` … `)` |
| Color.ColorsRgbRoundTrip | packages/pixel-ui/src/util/color.ts:28-45 | reading back a non-empty list of integers written by `colorsToRgb` gives the same list |
| Color.EmptyColorsRoundTrip | packages/pixel-ui/src/util/color.ts:28-45 | the empty list does not survive: it reads back as [0] |
| Color.RgbOfIntegers | packages/pixel-ui/src/util/color.ts:28-31 | `rgb(` with decimal integers joined by `, ` reads back as those integers |
| Color.RgbToHex | packages/pixel-ui/src/util/color.ts:47-50 | an error exactly when the text does not start with `rgb`; otherwise the result starts with `#` |
| Color.RgbToHexOf | packages/pixel-ui/src/util/color.ts:47-50 | the hex colour is `#` followed by each channel's hex form, in order |
| Color.AlphaChannel | packages/pixel-ui/src/util/color.ts:49 | a fourth channel is scaled by 255 and rounded before it is written in hex |
| Color.ColorsToHex | packages/pixel-ui/src/util/color.ts:52-54 | writing a list of numbers in hex never fails |
| Color.IntegersToHex | packages/pixel-ui/src/util/color.ts:52-54 | for integer channels the hex colour is `#` followed by each channel's hex form |
| Color.HexRoundTrip | packages/pixel-ui/src/util/color.ts:34-53 | for `#` and six hex digits, converting to channels and back gives the colour in lowercase |
| Parse.ParsePosition | packages/use-pixelated-css/src/util/parse.ts:1-4 | both coordinates are non-empty |
| Parse.ParseSize | packages/use-pixelated-css/src/util/parse.ts:6-12 | both dimensions are non-empty |
| Parse.EmptyPosition | packages/use-pixelated-css/src/util/parse.ts:2-3 | a missing or empty position is `0% 0%` |
| Parse.EmptySize | packages/use-pixelated-css/src/util/parse.ts:10-11 | a missing or empty size is `auto auto` |
| Parse.TwoWords | packages/use-pixelated-css/src/util/parse.ts:1-12 | the first two space-separated words are the two values; further words are ignored |
| Parse.OneWord | packages/use-pixelated-css/src/util/parse.ts:1-12 | a single word is the first value and the second defaults to `0%` or `auto` |
| Parse.SizeKeywords | packages/use-pixelated-css/src/util/parse.ts:7-9 | `cover` and `contain` stand for both dimensions |
| Parse.LeadingSpace | packages/use-pixelated-css/src/util/parse.ts:2-11 | a leading space leaves the first word empty, so it takes the default |
| Parse.Nth | packages/use-pixelated-css/src/util/parse.ts:2 | an element exists exactly at an index inside the array |
| BackgroundLayers.Cycle | packages/use-pixelated-css/src/render/background/background.ts:57-64 | `xs[i % xs.length]` is undefined exactly for an empty list, element `i` when it is in range, and element `i` modulo the length otherwise |
| BackgroundLayers.LayerCount | packages/use-pixelated-css/src/render/background/background.ts:42-51 | the number of layers is the length of the longest list among the eight layer properties; the colour list does not count |
| BackgroundLayers.MaxLength | packages/use-pixelated-css/src/render/background/background.ts:42-51 | the result is at least every list's length and equal to one of them |
| BackgroundLayers.FirstLayers | packages/use-pixelated-css/src/render/background/background.ts:54-66 | the loop builds one layer per index |
| BackgroundLayers.FirstLayersAt | packages/use-pixelated-css/src/render/background/background.ts:55-65 | layer `i` of the result is built from element `i` of each list |
| BackgroundLayers.ParseBackgroundLayers | packages/use-pixelated-css/src/render/background/background.ts:27-69 | the loop returns exactly the layers 0 to `LayerCount - 1`, in order |
| BackgroundLayers.OnlyFirstLayerColored | packages/use-pixelated-css/src/render/background/background.ts:56 | only layer 0 has a colour, and it has one exactly when the colour list is non-empty, taking its first entry |
| BackgroundLayers.MissingPropertiesDefault | packages/use-pixelated-css/src/render/background/background.ts:54-65 | missing lists give no image, position `0% 0%`, size `auto auto`, repeat `repeat`, attachment `scroll`, origin `padding-box`, clip `border-box` and blend mode `normal` |
| Background.Composite | packages/use-pixelated-css/src/render/background/background.ts:84-116 | the loop completes exactly when every layer is painted and the canvas has no zero side, and then makes two calls per layer; a painted layer on a zero-side canvas sets its blend mode and then throws |
| Background.CompositeOrder | packages/use-pixelated-css/src/render/background/background.ts:111-115 | layers are composited first to last: layer `i` sets its blend mode at call `2i` and draws its canvas at the origin at call `2i+1` |
| Background.CompositeStep | packages/use-pixelated-css/src/render/background/background.ts:84-121 | one more layer either adds its blend mode and canvas, or ends the loop in the `catch`: when it throws, or after its blend mode when the canvas has a zero side |
| Background.CompositeStops | packages/use-pixelated-css/src/render/background/background.ts:118-121 | once a layer throws, no later layer reaches the canvas |
| Background.ImageLayerAborts | packages/use-pixelated-css/src/render/background/background.ts:102 | as written, the first layer with a picture throws: only the layers before it are composited and the background ends in the `catch` |
| Background.SinglePicture | packages/use-pixelated-css/src/render/background/background.ts:98-104 | `background-image: url(a.png)` draws nothing as written; as corrected its layer is composited and the background completes exactly when the canvas has no zero side, with two calls |
| Background.ZeroSideNeverCompletes | packages/use-pixelated-css/src/render/background/background.ts:84-121 | on a canvas with a zero side, a style with at least one layer never completes, as written or as corrected: `drawImage` of the empty layer canvas throws into the `catch` |
| Background.ClipAfterPaint | packages/use-pixelated-css/src/render/background/background.ts:92-109 | as written, the last call on a clipped layer canvas is the clip and no earlier call clips, so a colour still fills the whole canvas |
| Background.GradientSetsNoClip | packages/use-pixelated-css/src/render/background/background.ts:98-104 | drawing a gradient sets no clip |
| Background.ClipBeforePaint | packages/use-pixelated-css/src/render/background/background.ts:106-109 | as corrected, a clipped layer canvas begins with the clip of its box |
| Background.NoLayersTransparent | packages/use-pixelated-css/src/render/background/background.ts:77-81 | with no layer the canvas gets one transparent fill; a colour alone makes no layer |
| Background.DrawLayerImage | packages/use-pixelated-css/src/render/background/background.ts:97-104 | the image branch adds a gradient or a loaded picture to the layer canvas, and the canvas keeps its size |
| Background.PaintLayerCanvas | packages/use-pixelated-css/src/render/background/background.ts:86-109 | a fresh layer canvas receives the clip, the colour and then the image |
| Background.ClipAndColor | packages/use-pixelated-css/src/render/background/background.ts:92-95 | the layer canvas gets the clip of a `padding-box` or `content-box` layer, then a full fill with the layer's colour if it has one |
| Background.DrawLayer | packages/use-pixelated-css/src/render/background/background.ts:84-116 | a painted layer on a canvas without a zero side adds exactly its blend mode and its canvas; on a zero-side canvas it adds the blend mode and ends in the `catch`; a layer that throws adds nothing |
| Background.DrawLayers | packages/use-pixelated-css/src/render/background/background.ts:84-116 | the loop adds exactly the calls of `Composite` and ends as it does, including the stop after the blend mode on a zero-side canvas |
| Background.DrawBackground | packages/use-pixelated-css/src/render/background/background.ts:71-122 | the canvas receives exactly the corrected background's calls, ends as it does (never complete on a zero-side canvas with a layer), and keeps its size |
| BackgroundImage.CoverFits | packages/use-pixelated-css/src/render/background/backgroundImage.ts:233-248 | `cover` keeps the picture's aspect ratio, covers the container on both axes and matches it on one |
| BackgroundImage.ContainFits | packages/use-pixelated-css/src/render/background/backgroundImage.ts:250-265 | `contain` keeps the picture's aspect ratio, fits inside the container on both axes and matches it on one |
| BackgroundImage.Dimension | packages/use-pixelated-css/src/render/background/backgroundImage.ts:267-281 | a dimension fails only for text that parseFloat reads as NaN |
| BackgroundImage.WordNotNumber | packages/use-pixelated-css/src/render/background/backgroundImage.ts:276-279 | a word that does not start like a number reads as NaN |
| BackgroundImage.DimensionRules | packages/use-pixelated-css/src/render/background/backgroundImage.ts:274-280 | `auto` is the picture's own size, `N%` is N hundredths of the container, `N` with a unit is N, and a keyword other than `auto` throws |
| BackgroundImage.LayerSize | packages/use-pixelated-css/src/render/background/backgroundImage.ts:87-106 | `cover` on either axis wins, then `contain` on either axis |
| BackgroundImage.IndependentAxes | packages/use-pixelated-css/src/render/background/backgroundImage.ts:102-105 | otherwise each axis is sized on its own, and sizing fails exactly when one axis does |
| BackgroundImage.Offset | packages/use-pixelated-css/src/render/background/backgroundImage.ts:283-300 | `left`/`top` give 0, `right`/`bottom` the free space, `center` half of it |
| BackgroundImage.LayerPosition | packages/use-pixelated-css/src/render/background/backgroundImage.ts:108-119 | `left` and `top` put the picture at 0; `right` and `bottom` put its far edge on the container's far edge; `center` leaves equal margins on both sides; each axis is placed by its own value |
| BackgroundImage.PercentOffset | packages/use-pixelated-css/src/render/background/backgroundImage.ts:284-286 | `N%` places the picture N hundredths of the way through the free space |
| BackgroundImage.KeywordOffsets | packages/use-pixelated-css/src/render/background/backgroundImage.ts:284-296 | `0%`, `50%` and `100%` agree with `left`, `center` and `bottom` |
| BackgroundImage.Iterations | packages/use-pixelated-css/src/render/background/backgroundImage.ts:181-182 | a `for` loop with bound `b` runs exactly for the indices below `b`, and never ends when `b` is +Infinity |
| BackgroundImage.Loops | packages/use-pixelated-css/src/render/background/backgroundImage.ts:181-182 | the nested loops end exactly when the row bound is finite and, if some row runs, the column bound is finite too |
| BackgroundImage.Row | packages/use-pixelated-css/src/render/background/backgroundImage.ts:182-190 | a row holds one tile per column, in column order |
| BackgroundImage.GridTile | packages/use-pixelated-css/src/render/background/backgroundImage.ts:181-191 | the tiles are drawn row by row: the tile at column x of row y is call `y * cols + x` of `rows * cols` |
| BackgroundImage.SpaceLayout | packages/use-pixelated-css/src/render/background/backgroundImage.ts:175-179 | for `space`, the count is the number of whole tiles that fit, the gap is under one tile, and tiles plus their count + 1 gaps span the canvas exactly |
| BackgroundImage.SpaceGapsEqual | packages/use-pixelated-css/src/render/background/backgroundImage.ts:185-186 | the first tile starts one gap after the position, and each next one a gap after the previous tile ends |
| BackgroundImage.SpaceLastGap | packages/use-pixelated-css/src/render/background/backgroundImage.ts:178-186 | when a tile fits, the last tile ends one gap before the far edge |
| BackgroundImage.RoundLayout | packages/use-pixelated-css/src/render/background/backgroundImage.ts:201-205 | for `round`, the stretched tiles span the canvas exactly, and no tile is drawn exactly when the tile is more than twice as wide as the canvas |
| BackgroundImage.RoundContiguous | packages/use-pixelated-css/src/render/background/backgroundImage.ts:207-217 | the `round` tiles are laid edge to edge from the position, and the last ends at the far edge |
| BackgroundImage.RoundIntegral | packages/use-pixelated-css/src/render/background/backgroundImage.ts:201 | the count is `Math.round` of the canvas over the tile |
| BackgroundImage.RepeatFills | packages/use-pixelated-css/src/render/background/backgroundImage.ts:121-166 | `repeat-x` fills canvas width by tile height, `repeat-y` tile width by canvas height and `repeat` the whole canvas, translated to the position inside save/restore; `no-repeat` draws the picture once |
| BackgroundImage.ZeroTileHangs | packages/use-pixelated-css/src/render/background/backgroundImage.ts:175-218 | a tile of zero width on a wide canvas makes `space` and `round` loop forever |
| BackgroundImage.DrawRow | packages/use-pixelated-css/src/render/background/backgroundImage.ts:182-190 | the inner loop draws exactly the row's tiles |
| BackgroundImage.DrawGrid | packages/use-pixelated-css/src/render/background/backgroundImage.ts:181-191 | the nested loops draw exactly the grid when they end, and the model draws nothing when they do not |
| BackgroundImage.DrawSpacedImage | packages/use-pixelated-css/src/render/background/backgroundImage.ts:168-192 | the canvas receives exactly the spaced tiles |
| BackgroundImage.DrawRoundedImage | packages/use-pixelated-css/src/render/background/backgroundImage.ts:194-218 | the canvas receives exactly the stretched tiles |
| BackgroundImage.DrawRepeatedImage | packages/use-pixelated-css/src/render/background/backgroundImage.ts:136-166 | returns true exactly when the picture tile has no zero side, and then the canvas receives exactly the pattern's calls; otherwise nothing is drawn (the `createPattern` of an empty tile throws) |
| BackgroundImage.DrawRepeat | packages/use-pixelated-css/src/render/background/backgroundImage.ts:45-64 | fails exactly for a `repeat`, `repeat-x` or `repeat-y` tile with a zero side; otherwise each `background-repeat` value draws its own way, and an unknown value draws nothing |
| BackgroundImage.UrlMatch | packages/use-pixelated-css/src/render/background/backgroundImage.ts:14 | a match of `url\(['"]?(.*?)['"]?\)` ends at a `)` and captures no `)` and no line break |
| BackgroundImage.NoUrlUnchanged | packages/use-pixelated-css/src/render/background/backgroundImage.ts:14 | text without `url(` is left as it is |
| BackgroundImage.UrlUnquoted | packages/use-pixelated-css/src/render/background/backgroundImage.ts:14 | `url(u)` becomes `u` |
| BackgroundImage.UrlQuoted | packages/use-pixelated-css/src/render/background/backgroundImage.ts:14 | `url("u")` and `url('u')` become `u` |
| BackgroundImage.ImageUrl | packages/use-pixelated-css/src/render/background/backgroundImage.ts:9-18 | the promise is rejected exactly when the image is missing or empty, or the replacement leaves nothing |
| BackgroundImage.ImageOutcome | packages/use-pixelated-css/src/render/background/backgroundImage.ts:8-75 | rejected exactly when the URL is; the promise resolves true only for a loaded picture whose size and position can be worked out and whose pattern tile has no zero side; a failed load never resolves true |
| BackgroundImage.DrawBackgroundImage | packages/use-pixelated-css/src/render/background/backgroundImage.ts:8-75 | the canvas receives the picture's calls when the promise resolves true, and nothing otherwise; a zero-side tile resolves false |
| BackgroundImage.SubPixelTileFails | packages/use-pixelated-css/src/render/background/backgroundImage.ts:219-231 | a repeated picture whose width or height comes out below one pixel gets a tile with a zero side, and the promise resolves false |
| BackgroundImage.WholeTileDrawn | packages/use-pixelated-css/src/render/background/backgroundImage.ts:136-166 | a repeated picture whose sides are at least one pixel (and below the canvas size limit) is drawn, and the promise resolves true |
| BackgroundImage.PatternOutcome | packages/use-pixelated-css/src/render/background/backgroundImage.ts:8-75 | with `repeat`, `repeat-x` or `repeat-y`, a loaded picture whose size can be worked out resolves true exactly when its tile has no zero side, and false otherwise |
| BackgroundImage.NaturalSizeAtOrigin | packages/use-pixelated-css/src/render/background/backgroundImage.ts:27-66 | a picture with the default size and position and `no-repeat` is drawn once, at its natural size, at the top-left corner |
| BackgroundGradient.SplitArgs | packages/use-pixelated-css/src/render/background/backgroundGradient.ts:29 | splitting on `,(?![^(]*\))` always gives at least one argument |
| BackgroundGradient.SplitArgsJoin | packages/use-pixelated-css/src/render/background/backgroundGradient.ts:29 | the arguments joined back with commas give the text again: the split loses nothing |
| BackgroundGradient.SplitArgsPlain | packages/use-pixelated-css/src/render/background/backgroundGradient.ts:29 | without parentheses every comma separates |
| BackgroundGradient.KeptTogether | packages/use-pixelated-css/src/render/background/backgroundGradient.ts:29 | a comma followed by `)` before any `(` does not separate |
| BackgroundGradient.CallKeptWhole | packages/use-pixelated-css/src/render/background/backgroundGradient.ts:29 | a call with commas inside, such as `rgb(0, 0, 0)`, stays one argument and the commas after it separate |
| BackgroundGradient.AngleFromDirection | packages/use-pixelated-css/src/render/background/backgroundGradient.ts:162-175 | the angle is always one of 45, 90, …, 315 or 180 |
| BackgroundGradient.KeywordAngle | packages/use-pixelated-css/src/render/background/backgroundGradient.ts:174 | a keyword is looked up as it is, and a 0 from the table falls back to 180 |
| BackgroundGradient.DirectionKeywords | packages/use-pixelated-css/src/render/background/backgroundGradient.ts:163-174 | the eight direction keywords give their angles, except that `to top` gives 180 like `to bottom` |
| BackgroundGradient.UnknownDirection | packages/use-pixelated-css/src/render/background/backgroundGradient.ts:174 | text that is not a direction keyword gives 180 |
| BackgroundGradient.StopSeparator | packages/use-pixelated-css/src/render/background/backgroundGradient.ts:46 | a split point of `\s+(?=\d+%)` is a run of spaces with digits and `%` after it |
| BackgroundGradient.EvenStops | packages/use-pixelated-css/src/render/background/backgroundGradient.ts:63-66 | without explicit stops, two or more colours get offsets from 0 to 1 in equal, strictly increasing steps |
| BackgroundGradient.ExplicitStop | packages/use-pixelated-css/src/render/background/backgroundGradient.ts:46-50 | `colour N%` gives the colour and the stop N/100 |
| BackgroundGradient.NoSpaceNoStop | packages/use-pixelated-css/src/render/background/backgroundGradient.ts:46-50 | an argument without a space is all colour and has no explicit stop |
| BackgroundGradient.StopPieces | packages/use-pixelated-css/src/render/background/backgroundGradient.ts:46-50 | the colour is the trimmed text before the separator, and the stop is the integer after it over 100 |
| BackgroundGradient.LinearPaint | packages/use-pixelated-css/src/render/background/backgroundGradient.ts:53-68 | the linear painter sets a linear gradient |
| BackgroundGradient.LinearSymmetric | packages/use-pixelated-css/src/render/background/backgroundGradient.ts:54-60 | for a finite angle the two end points lie symmetric about the centre of the canvas |
| BackgroundGradient.CentreSymmetric | packages/use-pixelated-css/src/render/background/backgroundGradient.ts:56-58 | `w/2 - d` and `w/2 + d` sum to `w` |
| BackgroundGradient.DegreeAngle | packages/use-pixelated-css/src/render/background/backgroundGradient.ts:35-36 | `N deg` sets the angle to N |
| BackgroundGradient.DirectionArgument | packages/use-pixelated-css/src/render/background/backgroundGradient.ts:37-38 | a first argument that starts with `to` and does not contain `deg` is a direction |
| BackgroundGradient.WordAt | packages/use-pixelated-css/src/render/background/backgroundGradient.ts:88-92 | the alternative that matches at a position, in the order the alternatives are written |
| BackgroundGradient.LeftmostWord | packages/use-pixelated-css/src/render/background/backgroundGradient.ts:88-92 | a match of `(w1\|w2\|…)` is one of the words and occurs in the text |
| BackgroundGradient.LeftmostWordFound | packages/use-pixelated-css/src/render/background/backgroundGradient.ts:88-92 | whenever one of the words occurs, the pattern matches |
| BackgroundGradient.AtGroupAt | packages/use-pixelated-css/src/render/background/backgroundGradient.ts:94 | the group of `at\s+([^)]+)` is non-empty and holds no `)` |
| BackgroundGradient.AtGroup | packages/use-pixelated-css/src/render/background/backgroundGradient.ts:94 | the first match of `at\s+([^)]+)` is non-empty and holds no `)` |
| BackgroundGradient.AtPosition | packages/use-pixelated-css/src/render/background/backgroundGradient.ts:94-96 | `at` followed by one space and a position gives that position |
| BackgroundGradient.AtNeedsAt | packages/use-pixelated-css/src/render/background/backgroundGradient.ts:94 | text without `at` has no position group |
| BackgroundGradient.PositionValue | packages/use-pixelated-css/src/render/background/backgroundGradient.ts:179-191 | `left`/`top` give 0, `right`/`bottom` the size, `center` half of it |
| BackgroundGradient.PercentPosition | packages/use-pixelated-css/src/render/background/backgroundGradient.ts:180-182 | `N%` is N hundredths of the size |
| BackgroundGradient.KeywordsArePercentages | packages/use-pixelated-css/src/render/background/backgroundGradient.ts:179-191 | `0%`, `50%` and `100%` agree with `left`, `center` and `right` |
| BackgroundGradient.GradientPosition | packages/use-pixelated-css/src/render/background/backgroundGradient.ts:178-197 | a position succeeds exactly when both coordinates are given; reading a missing one throws |
| BackgroundGradient.OneWordPosition | packages/use-pixelated-css/src/render/background/backgroundGradient.ts:94-97 | a one-word position after `at` throws |
| BackgroundGradient.ReadShape | packages/use-pixelated-css/src/render/background/backgroundGradient.ts:81-99 | without `circle` or `ellipse` the shape is an ellipse of size `farthest-corner` at the centre; otherwise the shape and size are always known keywords |
| BackgroundGradient.Hypot | packages/use-pixelated-css/src/render/background/backgroundGradient.ts:113-127 | `Math.hypot` of two finite numbers is finite |
| BackgroundGradient.SideRadiiBounds | packages/use-pixelated-css/src/render/background/backgroundGradient.ts:103-111 | for a centre inside the canvas, `closest-side` is the distance to the nearer edge and at most half the size; `farthest-side` is the distance to the farther edge and at least half the size |
| BackgroundGradient.ShapeRadius | packages/use-pixelated-css/src/render/background/backgroundGradient.ts:131-149 | a circle takes the smaller of its two radii and an ellipse the larger |
| BackgroundGradient.RadialPaint | packages/use-pixelated-css/src/render/background/backgroundGradient.ts:145-157 | the radial painter sets a radial gradient |
| BackgroundGradient.RadialWithoutAt | packages/use-pixelated-css/src/render/background/backgroundGradient.ts:136-143 | without `at` in the first argument, every argument is a colour, even one that names the shape |
| BackgroundGradient.GradientCommands | packages/use-pixelated-css/src/render/background/backgroundGradient.ts:8-20 | a gradient sets fill styles and then fills the whole canvas |
| BackgroundGradient.ReadRadialShape | packages/use-pixelated-css/src/render/background/backgroundGradient.ts:81-99 | the shape-reading statements of the radial painter compute exactly `ReadShape`, including its error when the position throws |
| BackgroundGradient.DrawRadialGradient | packages/use-pixelated-css/src/render/background/backgroundGradient.ts:73-159 | the canvas receives exactly the radial gradient's calls, or nothing when the position throws |
| BackgroundGradient.DrawBackgroundGradient | packages/use-pixelated-css/src/render/background/backgroundGradient.ts:8-20 | the canvas receives exactly the gradient's calls and the fill, or nothing when a painter throws |
| BackgroundClip.ClipBounds | packages/use-pixelated-css/src/render/background/backgroundClip.ts:36-82 | any mode other than `padding-box` and `content-box` clips to the whole canvas |
| BackgroundClip.Removed | packages/use-pixelated-css/src/render/background/backgroundClip.ts:59-73 | the insets each mode removes are finite when the widths are |
| BackgroundClip.ClipBoundsPartition | packages/use-pixelated-css/src/render/background/backgroundClip.ts:59-81 | in every mode the rectangle starts after the left and top insets, and the two insets and the rectangle add up to the canvas on each axis |
| BackgroundClip.ContentInsidePadding | packages/use-pixelated-css/src/render/background/backgroundClip.ts:59-72 | with non-negative paddings the `content-box` rectangle lies inside the `padding-box` one |
| BackgroundClip.MissingSidesNotInset | packages/use-pixelated-css/src/render/background/backgroundClip.ts:44-57 | sides missing from the style map count as 0, whatever the pixel size |
| BackgroundClip.NoSpacingWholeCanvas | packages/use-pixelated-css/src/render/background/backgroundClip.ts:44-81 | without borders and paddings every mode clips to the whole canvas |
| BackgroundClip.ApplyClipPath | packages/use-pixelated-css/src/render/background/backgroundClip.ts:4-27 | the canvas receives save, a new path, the rectangle of the bounds and the clip |
| Border.FirstValue | packages/use-pixelated-css/src/render/border/border.ts:40 | `styleMap[k]?.[0]` exists exactly when the property is present with at least one value |
| Border.Cascade | packages/use-pixelated-css/src/render/border/border.ts:162-166 | a chain of `\|\|` gives the fallback or a non-empty value |
| Border.CascadeFirst | packages/use-pixelated-css/src/render/border/border.ts:162-166 | the chain gives the first value of the first property that has a non-empty one |
| Border.CascadeFallback | packages/use-pixelated-css/src/render/border/border.ts:162-166 | when every property is missing or empty the chain gives the fallback |
| Border.ThreeLevels | packages/use-pixelated-css/src/render/border/border.ts:162-186 | at the three levels the border code reads, the most specific non-empty value wins, and otherwise the fallback |
| Border.ExpandToFour | packages/use-pixelated-css/src/render/border/border.ts:68-81 | one to four values are completed to four sides the CSS way (top, right, bottom, left), and any other count gives four zeros |
| Border.CompletionUnique | packages/use-pixelated-css/src/render/border/border.ts:68-81 | any four sides that complete the given values the CSS way are the ones returned |
| Border.ExpandIdempotent | packages/use-pixelated-css/src/render/border/border.ts:68-81 | completing four values again changes nothing |
| Border.ValueParts | packages/use-pixelated-css/src/render/border/border.ts:45-53 | a split always gives at least one piece, so the default only replaces a missing first value |
| Border.FourInts | packages/use-pixelated-css/src/render/border/border.ts:45-54 | every `border-image-*` list becomes four integers |
| Border.ParseBorderImage | packages/use-pixelated-css/src/render/border/border.ts:38-66 | a border image exists exactly when the source is present and not `none`; it keeps that source, four slices, widths and outsets, and a non-empty repeat mode |
| Border.BorderImageDefaults | packages/use-pixelated-css/src/render/border/border.ts:44-57 | with only a source, slices are 0, widths 1, outsets 0 and the repeat mode `stretch` |
| Border.OneSliceAllSides | packages/use-pixelated-css/src/render/border/border.ts:45-71 | one slice value applies to all four sides |
| Border.RadiusPrecedence | packages/use-pixelated-css/src/render/border/border.ts:109-126 | for each corner the flow-relative longhand wins over the physical one, which wins over `border-radius`; otherwise 0; the length is divided by the pixel size |
| Border.CornerRadii | packages/use-pixelated-css/src/render/border/border.ts:103-129 | every corner gets a radius |
| Border.ParseBorderRadius | packages/use-pixelated-css/src/render/border/border.ts:103-129 | filling the corners one after another gives each corner its radius by that precedence |
| Border.RadiusAt | packages/use-pixelated-css/src/render/border/border.ts:103-129 | the entry for each corner in the map of radii is that corner's own radius |
| Border.SameCorners | packages/use-pixelated-css/src/render/border/border.ts:116-128 | two complete corner maps that agree on every corner are equal |
| Border.SideStyle | packages/use-pixelated-css/src/render/border/border.ts:171-178 | a side's style is never empty |
| Border.SideColor | packages/use-pixelated-css/src/render/border/border.ts:180-187 | a side's colour is never empty |
| Border.SideWidthPrecedence | packages/use-pixelated-css/src/render/border/border.ts:154-169 | a side's width comes from the flow-relative longhand, then the physical one, then `border-width`, then 0, divided by the pixel size |
| Border.SideStylePrecedence | packages/use-pixelated-css/src/render/border/border.ts:171-178 | a side's style comes by the same precedence, and `none` without any |
| Border.SideColorPrecedence | packages/use-pixelated-css/src/render/border/border.ts:180-187 | a side's colour comes by the same precedence, and `currentcolor` without any |
| Border.SideBorders | packages/use-pixelated-css/src/render/border/border.ts:131-152 | every side gets a border |
| Border.ParseBorderStyles | packages/use-pixelated-css/src/render/border/border.ts:131-152 | filling the sides one after another gives each side its width, style and colour |
| Border.SameSides | packages/use-pixelated-css/src/render/border/border.ts:133-151 | two complete side maps that agree on every side are equal |
| BorderImage.NineCells | packages/use-pixelated-css/src/render/border/borderImage.ts:86-101 | a rectangle cut by four insets gives nine cells |
| BorderImage.NineSliceAreas | packages/use-pixelated-css/src/render/border/borderImage.ts:72-102 | the canvas gives nine areas, cut by the border widths over the pixel size |
| BorderImage.ImageSlices | packages/use-pixelated-css/src/render/border/borderImage.ts:104-125 | the picture gives nine slices, cut by the slice values |
| BorderImage.NineCellsPartition | packages/use-pixelated-css/src/render/border/borderImage.ts:86-101 | with insets that fit, the nine cells have non-negative sizes, lie inside the rectangle, do not overlap and cover its whole area |
| BorderImage.AreasPartition | packages/use-pixelated-css/src/render/border/borderImage.ts:72-102 | the canvas areas partition the canvas |
| BorderImage.SlicesPartition | packages/use-pixelated-css/src/render/border/borderImage.ts:104-125 | the picture slices partition the picture |
| BorderImage.SliceCommands | packages/use-pixelated-css/src/render/border/borderImage.ts:32-45 | as corrected, `round` and `space` draw nothing for a slice without area; otherwise each cell is drawn as written |
| BorderImage.RoundedFills | packages/use-pixelated-css/src/render/border/borderImage.ts:171-196 | for `round` there is at least one tile, a whole number of them, and the stretched tiles span the area exactly |
| BorderImage.SpacedFills | packages/use-pixelated-css/src/render/border/borderImage.ts:208-235 | for `space` there is at least one tile, and with more than one the last tile ends exactly at the far edge of the area |
| BorderImage.PiecesNext | packages/use-pixelated-css/src/render/border/borderImage.ts:26-46 | the centre cell adds nothing; every other cell adds its own calls, or stops everything when its loops never end |
| BorderImage.PiecesStuck | packages/use-pixelated-css/src/render/border/borderImage.ts:26-46 | once a cell never finishes, no later cell is reached |
| BorderImage.StretchPieces | packages/use-pixelated-css/src/render/border/borderImage.ts:33-139 | with `stretch` each of the eight outer cells is drawn once, picture slice `i` scaled to canvas area `i`, and the centre is not drawn |
| BorderImage.UnknownModeNothing | packages/use-pixelated-css/src/render/border/borderImage.ts:32-45 | an unknown repeat mode draws nothing |
| BorderImage.GuardedSliceEnds | packages/use-pixelated-css/src/render/border/borderImage.ts:164-238 | as corrected, a cell whose area is not infinite always finishes |
| BorderImage.ParsedWidthsNotInfinite | packages/use-pixelated-css/src/render/border/border.ts:49-50 | widths read by parseInt are never infinite |
| BorderImage.GuardedDrawingEnds | packages/use-pixelated-css/src/render/border/borderImage.ts:19-49 | as corrected, a border image is always drawn to the end for a finite non-zero pixel size and border widths that are not infinite |
| BorderImage.ZeroSliceNeverEnds | packages/use-pixelated-css/src/render/border/borderImage.ts:171-172 | as written, the default slice of 0 with `round` never finishes when the top and left borders have width: the tile count is `round(width / 0)`, that is +Infinity |
| BorderImage.FirstAreaPositive | packages/use-pixelated-css/src/render/border/borderImage.ts:88 | the top-left area starts at the origin and is as wide as the left border and as high as the top border |
| BorderImage.ZeroCornerStuck | packages/use-pixelated-css/src/render/border/borderImage.ts:26-172 | as written, a zero slice in the first cell drawn with `round` stops every later cell |
| BorderImage.DrawTiledSlice | packages/use-pixelated-css/src/render/border/borderImage.ts:179-198 | the canvas receives the clip to the area, the grid of tiles and the restore |
| BorderImage.DrawRoundedSlice | packages/use-pixelated-css/src/render/border/borderImage.ts:164-199 | the canvas receives exactly the `round` calls |
| BorderImage.DrawSpacedSlice | packages/use-pixelated-css/src/render/border/borderImage.ts:201-238 | the canvas receives exactly the `space` calls |
| BorderImage.DrawSlice | packages/use-pixelated-css/src/render/border/borderImage.ts:32-45 | one outer cell receives exactly its guarded calls |
| BorderImage.DrawPieces | packages/use-pixelated-css/src/render/border/borderImage.ts:26-46 | the cells are drawn in order, the centre skipped, until one never finishes |
| BorderImage.DrawBorderImage | packages/use-pixelated-css/src/render/border/borderImage.ts:11-56 | as corrected (`round` and `space` draw nothing for a slice without area; the code as written is `BorderImage.ZeroCornerStuck` and `BorderImage.ZeroSliceNeverEnds`): a failed load resolves false and draws nothing; a loaded picture resolves true exactly when the drawing ends, and then the canvas receives exactly its calls |
| BorderPath.DashPattern | packages/use-pixelated-css/src/render/border/borderPath.ts:23-35 | the dash list is empty, or a dash and a gap of equal length |
| BorderPath.DashShapes | packages/use-pixelated-css/src/render/border/borderPath.ts:23-35 | only `dashed` and `dotted` draw dashes; `dotted` uses the width and `dashed` three times the width |
| BorderPath.SidesInOrder | packages/use-pixelated-css/src/render/border/borderPath.ts:13 | the sides are drawn top, right, bottom, left |
| BorderPath.OwnPath | packages/use-pixelated-css/src/render/border/borderPath.ts:14-72 | a side draws nothing exactly when its width is not positive or its style is `none` or `hidden`; otherwise it opens its own path, sets its colour, width and dash, and ends with its own stroke |
| BorderPath.SegmentInset | packages/use-pixelated-css/src/render/border/borderPath.ts:39-69 | each side's segment runs clockwise half the border width inside its edge, as long as the edge less both corner radii and the width |
| BorderPath.CornerArcs | packages/use-pixelated-css/src/render/border/borderPath.ts:45-67 | a side ends in an arc exactly when its trailing corner's radius is positive; the arc has that radius, turns at the inset corner and ends where the next side's segment starts |
| BorderPath.CornersRoundTheRectangle | packages/use-pixelated-css/src/render/border/borderPath.ts:41-69 | each side's trailing corner is the next side's leading corner, and four steps come back to the start |
| BorderPath.SetUpSide | packages/use-pixelated-css/src/render/border/borderPath.ts:18-35 | the canvas receives the new path, the colour, the width and the dash |
| BorderPath.TraceSide | packages/use-pixelated-css/src/render/border/borderPath.ts:41-70 | the canvas receives the side's segment and, when its corner is rounded, the arc |
| BorderPath.DrawSide | packages/use-pixelated-css/src/render/border/borderPath.ts:14-72 | the canvas receives exactly one side's calls |
| BorderPath.DrawBorderPath | packages/use-pixelated-css/src/render/border/borderPath.ts:3-74 | the canvas receives exactly the four sides' calls, in order |
| BorderDrawing.DrawBorder | packages/use-pixelated-css/src/render/border/border.ts:21-36 | a border image takes precedence and no plain border is drawn; without one, the sides are stroked with the parsed radii |
| BorderDrawing.NoStyleNoBorder | packages/use-pixelated-css/src/render/border/border.ts:171-178 | without any border style the plain border draws nothing |
| RadiusClip.ApplyBorderRadius | packages/use-pixelated-css/src/render/clip/borderRadius.ts:11-41 | the canvas receives the rounded-rectangle path of its own size and then the clip |
| RadiusClip.TraceRoundedRect | packages/use-pixelated-css/src/render/clip/borderRadius.ts:12-39 | the calls are exactly the rounded-rectangle path |
| RadiusClip.TraceCorner | packages/use-pixelated-css/src/render/clip/borderRadius.ts:27-28 | one straight edge, then one curve |
| RadiusClip.ClipOutline | packages/use-pixelated-css/src/render/clip/borderRadius.ts:12-40 | the clip path starts and ends at the end of the top-left curve, passes the eight edge points clockwise, bends at the four canvas corners and is closed before the clip |
| RadiusClip.NoLonghandsClipRectangle | packages/use-pixelated-css/src/render/clip/borderRadius.ts:18-23 | without the four longhands every radius is 0 and the clip is the canvas rectangle |
| RadiusClip.ShorthandNotRead | packages/use-pixelated-css/src/render/clip/borderRadius.ts:18-23 | the `border-radius` shorthand is never read |
| RadiusClip.RadiusNotClamped | packages/use-pixelated-css/src/render/clip/borderRadius.ts:27 | a radius is not clamped: a top-right radius wider than the canvas puts the end of the top edge left of the canvas |
| Spacing.SideValues | packages/use-pixelated-css/src/util/spacing.ts:6-19 | a side missing from the style map counts as 0 |
| Spacing.RectSizeAsWritten | packages/use-pixelated-css/src/util/spacing.ts:4-40 | as written: the borders and paddings are those of the style map and box-sizing is the map's list, or `content-box` when absent |
| Spacing.RectSize | packages/use-pixelated-css/src/util/spacing.ts:4-40 | as corrected: the same borders, paddings and box-sizing |
| Spacing.ExtentArithmetic | packages/use-pixelated-css/src/util/spacing.ts:24-31 | with finite lengths a dimension is the client size plus both borders, plus both paddings when they are added |
| Spacing.RectSizeMeasures | packages/use-pixelated-css/src/util/spacing.ts:21-31 | both versions measure the same sides; they differ only in when the paddings are added |
| Spacing.SizingTests | packages/use-pixelated-css/src/util/spacing.ts:21-28 | the comparison as written passes only without a box-sizing entry; the intended one also when the first value is `content-box` |
| Spacing.PaddingForContentBox | packages/use-pixelated-css/src/util/spacing.ts:28-31 | as corrected, paddings are added exactly when box-sizing is `content-box` or absent; as written, only when it is absent |
| Spacing.NoSpacingClientSize | packages/use-pixelated-css/src/util/spacing.ts:24-25 | without borders and paddings the box is the client area, and 0 by 0 without an element |
| Spacing.ListedContentBoxLosesPadding | packages/use-pixelated-css/src/util/spacing.ts:21-28 | as written, an explicit `box-sizing: content-box` loses the paddings: the intended box is larger by exactly the paddings |
| StyleMaps.LengthOfList | packages/use-pixelated-css/src/util/spacing.ts:7 | an absent property and an empty list both give 0, and a one-value list gives that value in pixels |
| StyleMaps.SeveralValuesReadAsZero | packages/use-pixelated-css/src/util/spacing.ts:7 | a list of two or more values reads as text with a comma, which the length pattern rejects, so it gives 0 |
| Styles.StyleMapOf | packages/use-pixelated-css/src/util/styles.ts:3-11 | the map built entry by entry is the map of the entries |
| Styles.FromEntriesKeys | packages/use-pixelated-css/src/util/styles.ts:5-8 | the map has exactly the properties of the computed style |
| Styles.FromEntriesLast | packages/use-pixelated-css/src/util/styles.ts:5-8 | each property maps to the values of its last entry, as text |
| Styles.FlattenMembers | packages/use-pixelated-css/src/util/styles.ts:38 | a property is in a box's flattened list exactly when one of its groups lists it |
| Styles.PickedEntries | packages/use-pixelated-css/src/util/styles.ts:38-41 | a box's map holds exactly its listed properties; a present one keeps its list and a missing one maps to `[]` |
| Styles.PickedSnoc | packages/use-pixelated-css/src/util/styles.ts:38-41 | each step of the inner reduce adds one property |
| Styles.PickBox | packages/use-pixelated-css/src/util/styles.ts:38-41 | the inner reduce builds exactly the box's map |
| Styles.FillBoxes | packages/use-pixelated-css/src/util/styles.ts:37-43 | the outer reduce builds the boxes in order |
| Styles.CollectedValue | packages/use-pixelated-css/src/util/styles.ts:37-43 | with each box named once, each box holds the map of its own groups |
| Styles.BoxStyles | packages/use-pixelated-css/src/util/styles.ts:34-44 | `boxStyles` gives exactly the collected boxes |
| Styles.BoxStylesShape | packages/use-pixelated-css/src/util/styles.ts:13-43 | there are exactly four boxes, content, padding, border and margin, each holding exactly the properties of its groups |
| Pixel.SpanNotSemicolon | packages/use-pixelated-css/src/pixel.ts:25 | the `[^;]+` run stops exactly at the first semicolon |
| Pixel.ValueAfterColon | packages/use-pixelated-css/src/pixel.ts:25-27 | the group of `\s*([^;]+);` is a non-empty run without semicolons, preceded by spaces and followed by a semicolon; there is none exactly when no semicolon follows or one follows at once |
| Pixel.FindDeclFrom | packages/use-pixelated-css/src/pixel.ts:25-27 | a match found is the group after some occurrence of `<name>:` at or after the starting position |
| Pixel.NoDeclaration | packages/use-pixelated-css/src/pixel.ts:25-27 | without `<name>:` in the text there is no match |
| Pixel.FirstDeclaration | packages/use-pixelated-css/src/pixel.ts:25-27 | a declaration `<name>: <value>;` written first is read back as its value, whatever follows |
| Pixel.BorderRadius | packages/use-pixelated-css/src/pixel.ts:27-29 | without a `border-radius` declaration the radius is "0" resolved |
| Pixel.BorderTokens | packages/use-pixelated-css/src/pixel.ts:69-135 | for `<width> <style> <colour>` the width read is the first word and the colour the last |
| Pixel.GradientDirection | packages/use-pixelated-css/src/pixel.ts:100-120 | the line starts at the left or right edge; without a known keyword it runs from top to bottom |
| Pixel.DirectionOrder | packages/use-pixelated-css/src/pixel.ts:102-112 | `to right` wins over any other keyword, then `to left`; `to top` gives a line of length zero |
| Pixel.PercentAt | packages/use-pixelated-css/src/pixel.ts:125 | a match of `\d+%` at the start is a non-empty run of digits followed by `%` |
| Pixel.FirstPercent | packages/use-pixelated-css/src/pixel.ts:125 | the group found is a non-empty run of digits |
| Pixel.RemovePercents | packages/use-pixelated-css/src/pixel.ts:126 | the removal never lengthens the text and leaves text without `%` unchanged |
| Pixel.ColorStops | packages/use-pixelated-css/src/pixel.ts:122-130 | one stop per part |
| Pixel.AddColorStops | packages/use-pixelated-css/src/pixel.ts:122-130 | the loop adds exactly the stops of `ColorStops`, in order |
| Pixel.EvenStops | packages/use-pixelated-css/src/pixel.ts:127 | when the first and last parts have no percentage, the stops run from 0 at the first to 1 at the last |
| Pixel.IndexStopAt | packages/use-pixelated-css/src/pixel.ts:127 | a part without a percentage is placed at its index divided by the last index |
| Pixel.PercentStop | packages/use-pixelated-css/src/pixel.ts:124-128 | a stop `<colour> N%` sits at N/100 and keeps the colour alone |
| Pixel.SkipNoDigits | packages/use-pixelated-css/src/pixel.ts:125 | text without digits never starts a percentage: the search passes over it |
| Pixel.KeepNoDigits | packages/use-pixelated-css/src/pixel.ts:126 | text without digits is kept by the removal |
| Pixel.DigitsPercent | packages/use-pixelated-css/src/pixel.ts:125-126 | `N%` alone is found as N and removed whole |
| Pixel.GradientPaint | packages/use-pixelated-css/src/pixel.ts:87-98 | the paint is always a linear gradient; a missing or empty group gives a top-to-bottom gradient without stops |
| Pixel.BackgroundCommands | packages/use-pixelated-css/src/pixel.ts:73-85 | nothing without `background`; otherwise a fill style then a fill of the element's box, the fill style being the value itself unless it mentions `linear-gradient` |
| Pixel.InsetEdgePoints | packages/use-pixelated-css/src/pixel.ts:148-156 | the rounded border passes through eight edge points |
| Pixel.RoundedBorder | packages/use-pixelated-css/src/pixel.ts:146-159 | twelve calls, ending with the stroke |
| Pixel.InsetIsShiftedPath | packages/use-pixelated-css/src/pixel.ts:37-156 | the border path is the clip path of a box smaller by the border width, moved half the width inwards |
| Pixel.BorderCommands | packages/use-pixelated-css/src/pixel.ts:132-144 | nothing without `border`; otherwise stroke colour is the last token and line width the resolved width; with no positive radius or colour `none`, the box inset by half the width is stroked |
| Pixel.BorderShape | packages/use-pixelated-css/src/pixel.ts:138-142 | at least one call strokes the border |
| Pixel.ClipCommands | packages/use-pixelated-css/src/pixel.ts:34-48 | no clip without a positive radius; otherwise the path visits the eight edge points of the uniform rounded rectangle and closes at its start |
| Pixel.PlainStyleOnlyClears | packages/use-pixelated-css/src/pixel.ts:24-52 | a style without radius, background and border declarations only clears the canvas |
| Pixel.SmallSizeFloor | packages/use-pixelated-css/src/pixel.ts:168-169 | the small canvas is `floor(side / unitPixel)`: 0 for an element narrower than one block |
| Pixel.CreatePixelatedImage | packages/use-pixelated-css/src/pixel.ts:161-186 | without a small context the result is empty and the canvas untouched; otherwise the canvas gets the upscaled copy of itself, keeps its size, and its data URL is returned |
| Pixel.PatchRule | packages/use-pixelated-css/src/pixel.ts:16-63 | the original style comes back exactly when the context or element is missing; otherwise five declarations turn off border and rounding and stretch the picture without smoothing, with an empty URL when the small canvas has no context |
| Pixel.Pixelate | packages/use-pixelated-css/src/pixel.ts:13-64 | the method's result is the specified outcome |
| Pixel.DrawScene | packages/use-pixelated-css/src/pixel.ts:32-52 | the canvas receives clear, clip, background and border calls in that order and keeps its size |
| Pixel.ClipToRadius | packages/use-pixelated-css/src/pixel.ts:33-48 | for a positive radius the canvas receives the rounded-rectangle path of its whole size and `clip()`, otherwise nothing; its size is kept |
| Pixel.DrawBackground | packages/use-pixelated-css/src/pixel.ts:73-85 | the canvas receives exactly the background calls |
| Pixel.DrawBorder | packages/use-pixelated-css/src/pixel.ts:132-144 | the canvas receives exactly the border calls |
| Pixel.DrawRoundedRect | packages/use-pixelated-css/src/pixel.ts:146-159 | the canvas receives exactly the rounded border calls |
| Pixel.TracePath | packages/use-pixelated-css/src/pixel.ts:35-157 | the canvas receives the closed path through the eight edge points, bending at the four corners |
| CoreCanvas.HexColorLength | packages/core/src/canvas.ts:15 | a `#[0-9a-fA-F]{3,6}` match at the start is a hex colour |
| CoreCanvas.CallColorLength | packages/core/src/canvas.ts:15 | an `rgb(...)` or `rgba(...)` match at the start is at least the head and three characters long and ends with `)` |
| CoreCanvas.ColorLength | packages/core/src/canvas.ts:15 | the colour alternation matched at the start is a hex colour when it starts with `#`, and otherwise ends with `)` |
| CoreCanvas.FirstColorFrom | packages/core/src/canvas.ts:15-18 | a colour found is never empty |
| CoreCanvas.ExtractColorFromCSS | packages/core/src/canvas.ts:6-22 | a non-empty `background-color` wins; with neither it and a non-empty `background`, white; never empty |
| CoreCanvas.LeadingHexColor | packages/core/src/canvas.ts:13-18 | a background starting with a hex colour gives that colour when no `background-color` is set |
| CoreCanvas.NoColorWritten | packages/core/src/canvas.ts:13-21 | a background with no `#` and no `rgb` falls back to white |
| CoreCanvas.StopAt | packages/core/src/canvas.ts:45 | a stop matched at the start is a well-formed prefix: a hex colour when it starts with `#`, otherwise a colour ending in `)` |
| CoreCanvas.StopIsPrefix | packages/core/src/canvas.ts:45 | a stop match is the text at the start of the input |
| CoreCanvas.SplitStop | packages/core/src/canvas.ts:52 | splitting a stop on spaces gives back its colour and position |
| CoreCanvas.OnlyHexStops | packages/core/src/canvas.ts:41-52 | inside the `linear-gradient(...)` group no `)` occurs, so only hex colours match and each stop splits into colour and position |
| CoreCanvas.GradientStops | packages/core/src/canvas.ts:51-57 | one colour stop per match |
| CoreCanvas.GradientCommandsShape | packages/core/src/canvas.ts:27-61 | nothing is drawn unless a `linear-gradient(` group with at least two stops is found; then a gradient from the origin to the scaled size, one stop per match, fills that rectangle |
| CoreCanvas.AddColorStops | packages/core/src/canvas.ts:51-57 | the loop adds exactly the stops of `GradientStops`, in order |
| CoreCanvas.DrawGradient | packages/core/src/canvas.ts:27-61 | the canvas receives exactly the gradient calls and keeps its size |
| CoreCanvas.HexStopAt | packages/core/src/canvas.ts:45 | a hex colour, spaces and digits (with `%` when it follows) are matched as one stop |
| CoreCanvas.PercentPosition | packages/core/src/canvas.ts:53-54 | a position `N%` is N/100 |
| CoreCanvas.EvenStops | packages/core/src/canvas.ts:53-55 | positions without `%` are spread from 0 at the first stop to 1 at the last |
| CoreCanvas.BorderCommandsShape | packages/core/src/canvas.ts:66-90 | nothing is drawn exactly when the parsed width is at most 0; otherwise the stroke colour (black by default) and scaled line width are set, and a rectangle is stroked exactly when the style is `solid` |
| CoreCanvas.DrawBorder | packages/core/src/canvas.ts:66-90 | the canvas receives exactly the border calls and keeps its size |
| CoreCanvas.NoBorderKeys | packages/core/src/canvas.ts:73-77 | without `border-width` and `border`, no border is drawn |
| CoreCanvas.ShorthandWidth | packages/core/src/canvas.ts:73-88 | a `border` shorthand starting with a positive number strokes a black rectangle inset by half the line width |
| CoreCanvas.UnparsedWidthStillSetsStroke | packages/core/src/canvas.ts:73-80 | a width that does not parse is NaN, which is not `<= 0`, so the stroke is still set, with a NaN line width |
| CanvasUtils.PixelateCanvasData | packages/core/src/utils.ts:18-50 | an error exactly when a context is missing or a `drawImage` draws a canvas with a zero side (the original, with the canvas untouched; the small copy, after the canvas is cleared); otherwise the same canvas, same size, with smoothing off, cleared and the down-sampled copy drawn over it |
| CanvasUtils.SmallCanvasUsable | packages/core/src/utils.ts:29-47 | for a pixel size of at least 1, the small copy has a zero side exactly when the original has one |
| CanvasUtils.DownsampledSize | packages/core/src/utils.ts:29-38 | the small canvas is `ceil(side / unitPixel)`: scaled back it covers the original and overshoots by less than one block |
| CanvasUtils.SmallCells | packages/core/src/utils.ts:29-30 | one side of the small canvas is the ceiling of side over pixel size |
| CanvasUtils.SmallSide | packages/core/src/utils.ts:29-30 | the same for a real side length |
| CanvasUtils.PixelatedPasses | packages/core/src/utils.ts:41-47 | both passes draw with smoothing off: original onto the whole small canvas, then small canvas over the cleared original |
| CanvasUtils.DefaultBlocks | packages/core/src/utils.ts:20-30 | without a pixel size the blocks are 4 pixels wide |
| CanvasUtils.CreateCSSFilterPixelStyle | packages/core/src/utils.ts:55-66 | `auto` rendering and no filter exactly when smoothing is asked for, pixelated otherwise; the transform origin is the top-left corner |
| CanvasUtils.TransformCancels | packages/core/src/utils.ts:59-62 | the two scale factors undo each other for a finite non-zero pixel size; 0 gives an infinite first factor |
| CanvasUtils.DefaultFilterStyle | packages/core/src/utils.ts:55-66 | with no arguments: pixelated, `scale(0.25) scale(4)`, blur and contrast |
| StyleObjects.Spread | packages/core/src/pixelate.ts:84-87 | every key of either object, keys of the second taking its values |
| StyleObjects.EmptyStyleObject | packages/core/src/css-parser.ts:118-119 | the empty style has no properties |
| Pixelate.CanvasCommandsHead | packages/core/src/pixelate.ts:37-43 | the first four calls set smoothing and quality and fill the whole small canvas with the background colour, before gradient and border |
| Pixelate.PixelateCSS | packages/core/src/pixelate.ts:8-62 | as corrected (the helpers are handed the declarations by their property names; the code as written is `Pixelate.ParsedStyleDrawsOnlyWhite`): an error exactly when the canvas has no context; otherwise the style of the encoded canvas: stretched 100% by 100%, positioned relatively, rendered `auto` exactly when smoothing is on and `pixelated` otherwise |
| Pixelate.DrawPixelated | packages/core/src/pixelate.ts:37-49 | the canvas receives the smoothing settings, the background fill, the gradient and the border in that order and keeps its size |
| Pixelate.CanvasSize | packages/core/src/pixelate.ts:25-43 | the canvas is `ceil(width / unitPixel)` by `ceil(height / unitPixel)` and the fill covers all of it |
| Pixelate.DefaultSettings | packages/core/src/pixelate.ts:14-18 | without options: no smoothing, `medium` quality, 4-pixel blocks |
| Pixelate.ParsedStyleDrawsOnlyWhite | packages/core/src/pixelate.ts:21-49 | as written, whatever the declarations, the canvas is a white fill and nothing else |
| Pixelate.NothingDeclaredDrawsWhite | packages/core/src/canvas.ts:21 | an empty style map gives the white fill alone |
| Pixelate.DeclaredColorFills | packages/core/src/pixelate.ts:41-43 | as corrected, a `background-color` declared last with a value is the fill colour |
| Pixelate.DeclaredLast | packages/core/src/css-parser.ts:118-130 | a rule with a property and a value sets that property, later rules winning |
| Pixelate.LaterDeclarationsOverride | packages/core/src/css-parser.ts:118-130 | the declarations of `a; b` are those of `a` updated by those of `b` |
| Pixelate.StyleObjectToString | packages/core/src/pixelate.ts:67-71 | the text is empty exactly when the object has no entries |
| Pixelate.StyleTextRoundTrip | packages/core/src/pixelate.ts:67-71 | splitting the text back into rules gives one rule per entry, in order, with the entry's key and value |
| Pixelate.PlainEntry | packages/core/src/pixelate.ts:69 | an entry of plain key and value has no `;`, is not empty and is its own trim |
| Pixelate.EntryParts | packages/core/src/pixelate.ts:69 | the property and value of an entry's text are its key and value |
| Pixelate.CreatePixelatedStyle | packages/core/src/pixelate.ts:76-90 | as corrected (the canvas drawn from the declarations by their property names; the code as written is `Pixelate.ParsedStyleDrawsOnlyWhite`): an error exactly when the canvas has no context; otherwise the keys of the parsed style and the pixelated one, each pixelated property replacing the parsed one of the same name |
| PixelEngine.SeparateStyles | packages/core/src/simple-pixel-engine.ts:24-50 | the background gets colour, image, border and radius unchanged; the text style has a colour and font size exactly when the parsed style does, and copies font family, weight and alignment |
| PixelEngine.JustifyContent | packages/core/src/simple-pixel-engine.ts:79-121 | `center` exactly for centred text, `flex-end` exactly for right-aligned text, `flex-start` otherwise |
| PixelEngine.Pixelized | packages/core/src/simple-pixel-engine.ts:63-90 | the container shows the rendered image as `url(...)`, has the requested size, is pixelated, carries the given padding and aligns as the text asks; the text style is the separated one |
| PixelEngine.PixelizeCSS | packages/core/src/simple-pixel-engine.ts:55-91 | the container padding is the parsed padding printed as four lengths, or undefined without one |
| PixelEngine.PixelizeCSSProperties | packages/core/src/simple-pixel-engine.ts:96-130 | an error exactly when the property object is rejected by the converter; otherwise the padding is the object's own `padding` and the text style the separated one |
| PixelEngine.ContainerObject | packages/core/src/simple-pixel-engine.ts:69-84 | the container style has exactly its eleven properties |
| PixelEngine.TextObject | packages/core/src/simple-pixel-engine.ts:36-47 | the text style has exactly its six properties, `lineHeight` among them |
| PixelEngine.KeysDisjoint | packages/core/src/simple-pixel-engine.ts:36-84 | no property is both a container and a text property |
| PixelEngine.MergedStyle | packages/core/src/simple-pixel-engine.ts:144-147 | the merge keeps every container and every text property with its own value |
| PixelEngine.PixelizedStyleSize | packages/core/src/simple-pixel-engine.ts:135-148 | the merged style is as large as asked, 200 by 100 by default, and shows the rendered background |
| PixelEngine.MergedSize | packages/core/src/simple-pixel-engine.ts:70-147 | the merged style keeps the container's size and image |
| PixelEngine.LengthTextReadsBack | packages/core/src/simple-pixel-engine.ts:41 | a whole length printed as `${value}${unit}` reads back through the parser as the same length |
| PixelEngine.IntegerLengthReadsBack | packages/core/src/simple-pixel-engine.ts:41 | any whole number printed in decimal, with its minus when negative, followed by a unit name reads back through the parser as that number in that unit |
| PixelEngine.PaddingTextReadsBack | packages/core/src/simple-pixel-engine.ts:81-83 | the padding text splits into four words, reading back as top, right, bottom and left |
| PixelEngine.FontSizeReadsBack | packages/core/src/simple-pixel-engine.ts:40-42 | the text style's font size reads back as the parsed one |
| PixelEngine.OpaqueColorCss | packages/core/src/simple-pixel-engine.ts:37-39 | an opaque colour prints with alpha 1 |
| PixelEngine.PixelizedPaddingReadsBack | packages/core/src/simple-pixel-engine.ts:60-83 | the container padding of `pixelizeCSS` reads back as the four parsed sides |
| PixelEngine.TextDoesNotReachBackground | packages/core/src/simple-pixel-engine.ts:28-66 | two styles agreeing on the background properties render the same image, whatever their text properties |
| PixelEngine.EmptyPixelized | packages/core/src/simple-pixel-engine.ts:55-91 | an empty style sheet gives no padding, start alignment and a text style with nothing set |
| PixelCaching.CachedStyle | packages/react/src/usePixelCache.tsx:32-40 | a hit style has exactly seven properties |
| PixelCaching.PixelCache.constructor | packages/react/src/usePixelCache.tsx:9 | the cache starts empty |
| PixelCaching.PixelCache.Set | packages/react/src/usePixelCache.tsx:47 | the key maps to the new value; a new key goes to the end of the insertion order, an existing key keeps its place |
| PixelCaching.PixelCache.UseCachedPixelCSS | packages/react/src/usePixelCache.tsx:21-60 | a stored non-empty URL is a hit, returned without rendering and without changing the cache; a failed render gives `{}` and changes nothing; a render returns the merged style and stores its image under the key |
| PixelCaching.PixelCache.Clear | packages/react/src/usePixelCache.tsx:68-71 | the cache is empty afterwards |
| PixelCaching.PixelCache.Remove | packages/react/src/usePixelCache.tsx:78-80 | the key alone is removed, keeping the order of the others; the result says whether it was present |
| PixelCaching.PixelCache.Info | packages/react/src/usePixelCache.tsx:73-76 | the size is the number of keys, listed in insertion order, exactly the stored ones |
| PixelCaching.WithoutKeeps | packages/react/src/usePixelCache.tsx:79 | dropping a key keeps every other key, each once |
| PixelCaching.DistinctCardinality | packages/react/src/usePixelCache.tsx:74-75 | distinct keys are as many as the set of keys is large |
| PixelCaching.KeyDeterminesRequest | packages/react/src/usePixelCache.tsx:14-16 | for whole-number options two requests with the same key have the same style text and options, even when the text holds `\|` |
| PixelCaching.HitAgreesWithMiss | packages/react/src/usePixelCache.tsx:32-52 | every property of a hit has the value the storing miss gave it |
| PixelCaching.HitDropsTheRest | packages/react/src/usePixelCache.tsx:32-52 | a hit drops display, alignment, padding and every text property |
| PixelCaching.RenderedResultShape | packages/core/src/simple-pixel-engine.ts:69-77 | every rendered result has the requested size and the stored image, `cover`, `no-repeat`, `center` and `pixelated` |

## Left out

- Rasterisation is not modelled. The canvas calls are recorded, not executed: filling, stroking, clipping, compositing, gradients, patterns, and the nearest-neighbour resampling done with smoothing off. `toDataURL` and image encoding are parameters of type `ImageSource -> string`.
- Trigonometry is a parameter record (`Js.Trig`). This covers the cosine, sine and `Math.hypot` of gradient end points and radial radii, and `Math.PI`.
- IEEE-754 doubles are modelled as exact reals plus NaN and the infinities. Rounding error and the signed zero are not modelled.
- The digits `String(number)` prints after the point for a non-integer are a parameter (`frac`). Integers are printed exactly.
- `parseFloat` and `Number` read a decimal literal with an optional exponent, and `Infinity`. Exponents are read exactly, and the model does not round them to a double.
- Picture loading is asynchronous in the code: a `url(...)` layer and a border image wait for `onload`/`onerror`. The model takes the loaded picture, or its failure, as a parameter. Only the `url(...)` layer has a timeout: `packages/use-pixelated-css/src/render/background/backgroundImage.ts:23-26` resolves with `false` after 10 seconds. The border image has none. The waiting is not modelled; only its result is: a `url(...)` layer whose `onload` throws resolves false, as the timer makes it.
- The corrected `Background.DrawBackground` draws a layer's picture before the layer canvas is composited. In the code, the load would land after composition.
- `computedStyleMap()` is a parameter of `Styles.StyleMapOf`, as a sequence of entries.
- The element's client size, font sizes, viewport and root font size are parameters (`Env`, `Element`, `Host`).
- `getCanvasBlendMode` is a parameter. Its file is not part of this model.
- `convertCSSUnitToPx`, called by `packages/use-pixelated-css/src/pixel.ts`, is a parameter. Its file is not part of this model.
- The HSL conversions and luminance of `packages/pixel-ui/src/util/color.ts:56-150` are left out. They are floating-point colour maths with `**` and thresholds.
- React is left out: `useMemo`, `useRef`, providers and components. `useCachedPixelCSS` is modelled as one evaluation of its memoised body. The `cacheSize` ref of `usePixelCacheManager`, which is only ever set to 0, is not modelled.
- DOM observation, debouncing, `safeAsync` and `getElementRenderSize` are left out. They are browser plumbing.
- `console.error` calls are left out.
- The order of an object's keys is not kept: style objects are maps.
- `boxShadow` is copied into the background style but not drawn, and `lineHeight` is always undefined. Neither is modelled beyond being carried.
- `packages/core/src/index.ts` re-exports `pixelizeCSS` from `./pixel-engine`. That file is not part of this model. The cache uses the simple engine's `pixelizeCSS`, which has the same signature.
- `PixelCaching.KeyDeterminesRequest`: proved only for whole-number options. The digits JavaScript prints for other numbers are a parameter.
- `CanvasUtils.CreateCSSFilterPixelStyle`: the transform text is stated only through `CanvasUtils.DefaultFilterStyle` and `CanvasUtils.TransformCancels`. The printed digits of `1 / unitPixel` are a parameter.
- `Pixel.GradientDirection`: for a `deg` direction, only the start point is stated. The end point comes from the trigonometry parameter.
- `CoreCanvas.DrawGradient` ignores the gradient's direction: it always runs from the top-left corner to the scaled size. The model does the same.
- `CoreCanvas.UnparsedWidthStillSetsStroke` follows the code: a width that does not parse sets the stroke with a NaN line width.
- `PixelCaching.HitDropsTheRest` follows the code: a cache hit returns 7 properties, where the miss that stored the URL returned 17. The 10 dropped are display, alignment, padding and the six text properties.
- `RadiusClip.ApplyBorderRadius` follows the code: it reads only the four physical corner longhands, never the `border-radius` shorthand.
- Radii are not clamped anywhere, as in the code.
- Exceptions the canvas itself raises (`IndexSizeError`, `SyntaxError`, `InvalidStateError`, and the `TypeError` of a non-finite number) are modelled in `CanvasUtils.PixelateCanvasData`, in `Background.DrawLayer` (the `drawImage` of a layer canvas with a zero side, `background.ts:115`) and in `BackgroundImage.DrawRepeatedImage` (the `createPattern` of a picture tile with a zero side, `backgroundImage.ts:145`). Elsewhere the model records the call and carries on. The lines below name, member by member, the inputs that throw in a browser.
- NamedColorsIgnoreCase: a name that is a key of `Object.prototype` (`constructor`, `__proto__`, `toString`, `hasOwnProperty`, …) finds the inherited member in `namedColors` (`packages/core/src/css-parser.ts:72`). That member is truthy, so the code returns a function or an object, not a colour. The model gives opaque black for these names, as for any other unknown name.
- AngleFromDirection: a direction that is a key of `Object.prototype` (`toString`, `constructor`, …) finds the inherited function in `directionMap` (`packages/use-pixelated-css/src/render/background/backgroundGradient.ts:174`). It is truthy, so the angle is a function and the gradient's coordinates come out NaN. The model gives 180, as for any other unknown direction.
- UnknownDirection: for the same reason, `toString` and the other `Object.prototype` keys do not give 180 in the code.
- LinearPaint: `addColorStop` throws an `IndexSizeError` for a stop above 100% (`red 150%`) and a `SyntaxError` for a colour the canvas cannot read (`backgroundGradient.ts:65`). The model records the stop.
- RadialPaint: the same `addColorStop` throws (`backgroundGradient.ts:154`). `createRadialGradient` also throws an `IndexSizeError` for a negative radius (`backgroundGradient.ts:146`). The model records the gradient.
- GradientCommands (`BackgroundGradient.GradientCommands`): its `Err` is only the `TypeError` of a missing coordinate. Where `LinearPaint` or `RadialPaint` above throw in the code, the model gives `Ok`.
- DrawRadialGradient: records the gradient for the inputs that throw under `RadialPaint`.
- DrawBackgroundGradient: records the gradient for the inputs that throw under `LinearPaint` and `RadialPaint`.
- DrawLayerImage: a gradient layer with one of those inputs is drawn in the model. In the code it throws.
- DrawBackground (`Background.DrawBackground`): in the code, such a throw reaches the `catch` of `drawBackground` (`background.ts:117-120`) and ends the whole background. The model paints the layer and goes on.
- SliceCommands: with `border-image-repeat: repeat` and a slice with a zero side (the default slice is 0), `createPattern` of the empty slice canvas throws an `InvalidStateError` (`borderImage.ts:148`, `borderImage.ts:241-243`). The model records the pattern.
- DrawSlice: the same `createPattern` throw, in its `repeat` branch.
- DrawPieces: in the code, that throw also ends the loop over the cells. The model draws every cell.
- GuardedDrawingEnds: the same `createPattern` throw is not modelled, so a `repeat` cell with a zero slice is said to end where the code throws.
- DrawBorderImage: in the code, that throw happens inside `onload`. No later cell is drawn and the promise never settles. The model resolves true.
- AddColorStops (`Pixel.AddColorStops`): `addColorStop` throws an `IndexSizeError` for a stop above 100% (`red 150%`), and a `SyntaxError` for a stop with no colour (`50%`, whose colour is the empty text) (`packages/use-pixelated-css/src/pixel.ts:127-128`). The model records the stop.
- GradientPaint: records the gradient for the stops that throw under `Pixel.AddColorStops`.
- BackgroundCommands: records the gradient for the stops that throw under `Pixel.AddColorStops`.
- DrawBackground (`Pixel.DrawBackground`): draws the gradient for the stops that throw under `Pixel.AddColorStops`.
- DrawScene: draws the background for the stops that throw under `Pixel.AddColorStops`.
- CreatePixelatedImage: an element narrower or shorter than `unitPixel` gets a small canvas with a zero side (`Pixel.SmallSizeFloor`). `drawImage` of it throws an `InvalidStateError` (`pixel.ts:178-182`). The model returns a data URL.
- Pixelate (`Pixel.Pixelate`): returns a data URL where `CreatePixelatedImage` or `Pixel.AddColorStops` above throw.
- RenderBackgroundToLowRes: a `linear-gradient` with one stop gets the position 0/0, which is NaN, and `addColorStop(NaN)` throws a `TypeError` (`packages/core/src/background-renderer.ts:123`). The model records the stop.
- DrawGradientLayer: the same one-stop throw.
- UpscaleToPixelated: a width or height of 0 gives a low-resolution canvas with a zero side, and `drawImage` of it throws an `InvalidStateError` (`background-renderer.ts:225`). The model returns the canvas.
- PixelatedBackgroundSize: states the sizes for a width or height of 0, where the code throws in `UpscaleToPixelated`.
- RenderPixelatedBackground: returns a canvas for a one-stop gradient or a zero size, where the code throws.
- CreatePixelatedBackgroundURL: returns an image for a one-stop gradient or a zero size, where the code throws.
- Pixelized: returns a style for a one-stop gradient or a zero width or height, where the renderer throws.
- PixelizeCSS: the same renderer throws are not modelled.
- PixelizeCSSProperties: its errors are only the converter's. The renderer throws of `PixelizeCSS` are not modelled.
- UseCachedPixelCSS: in the code, a render that throws (a zero width, a one-stop gradient) reaches the `catch` (`packages/react/src/usePixelCache.tsx:53-55`), which returns `{}` and stores nothing. The model renders and stores.
- GradientCommandsShape: a stop above 100% (`#fff 150%`) makes `addColorStop(1.5)` throw an `IndexSizeError` (`packages/core/src/canvas.ts:56`). The model records the gradient.
- AddColorStops (`CoreCanvas.AddColorStops`): the same `addColorStop` throw.
- DrawGradient: draws the gradient for that stop, where the code throws.
- PixelateCSS: with the declarations corrected, such a stop reaches `drawGradient`, which throws. The model draws it.
- DrawPixelated: draws a stop above 100%, where `drawGradient` throws.
- CreatePixelatedStyle: with the declarations corrected, a stop above 100% throws in `drawGradient`. The model draws it.

## Findings

| source | as written | input that shows it | evidently intended | confidence | as-written member | corrected member |
|---|---|---|---|---|---|---|
| packages/use-pixelated-css/src/render/background/background.ts:102 | `drawBackgroundImage({ctx, layer})` passes the layer under the name `layer`. The callee destructures `background`, so `background.image` throws a TypeError. The `catch` ends the whole background. | any style map whose `background-image` is `url(a.png)` | pass the layer as `background`, so the picture is drawn | not executed | Background.ImageLayerAborts | Background.DrawBackground |
| packages/use-pixelated-css/src/render/background/background.ts:92-109 | the clip of a `padding-box` or `content-box` layer is applied after the colour and image are painted, so it clips nothing | `background-color: red; background-clip: padding-box` with a 4px border | clip first, then paint | not executed | Background.ClipAfterPaint | Background.ClipBeforePaint |
| packages/use-pixelated-css/src/render/border/borderImage.ts:171-172 | with the default slice of 0, the tile count of `round` is `round(width / 0)`, which is +Infinity, so the tile loop never ends | `border-image-source: url(a.png); border-image-repeat: round` with a 4px border | for `round` and `space`, skip a cell whose slice has no area | not executed | BorderImage.ZeroSliceNeverEnds | BorderImage.GuardedDrawingEnds |
| packages/use-pixelated-css/src/util/spacing.ts:21-28 | `box-sizing` is read as the style map's list and compared with the text `content-box`. A list never equals a text, so an explicit `content-box` loses the paddings. | `box-sizing: content-box; padding: 8px` | compare the first value of the list | not executed | Spacing.ListedContentBoxLosesPadding | Spacing.PaddingForContentBox |
| packages/core/src/pixelate.ts:21-49 | the parsed style, whose keys are camelCase fields, is handed to the canvas helpers, which read kebab-case keys. The canvas is always a plain white fill. | `background-color: #ff0000; border-width: 2px` | hand the helpers the declarations by their property names | not executed | Pixelate.ParsedStyleDrawsOnlyWhite | Pixelate.DeclaredColorFills |
