# Skill-icons grid composer, modelled in Dafny

The repository builds one composite SVG image out of a directory of skill
icons. `scripts/skill-icons-index.js` lists the icons directory, keeps the
`.svg` files, reads them, and lays them out in a grid of 15 icons per row.
Each cell is 300 viewBox units wide, and 44 units are trimmed off each
overall dimension. Each icon is wrapped in a `<g transform="translate(x, y)">`
group. The root `<svg>` element gets a viewBox of `rawWidth × rawHeight` and a
displayed size scaled by 48/256.

The model splits `main()` into its pieces, one module each:

- `IconFilter` (`filter.dfy`): the case-insensitive `.svg` filter on the
  directory listing.
- `GridLayout` (`layout.dfy`): the constants, the row and column counts, the
  viewBox size and the displayed size. The row width is a parameter of type
  `PerLine` (any positive number), and the composer uses `IconsPerLine = 15`.
- `GridPlacement` (`placement.dfy`): the cell and translation of icon `i`.
- `SvgDocument` (`render.dfy`): the document as a structure, a header (width,
  height, viewBox) plus one group `(x, y, content)` per icon.
- `SkillIcons` (`compose.dfy`): one run of the program. The directory listing
  and the readable files are inputs. The result is either a document or one of
  the ways the run stops early.
- `Wrappers` (`wrappers.dfy`): `Option` and `Result`.

Everything is pure: the script uses only `const` bindings, `filter`/`map`/`join`
and arithmetic. So the model uses only datatypes, functions and lemmas.

Notes on modelling:

- `Math.ceil(count / perLine)` becomes the integer `(n + p - 1) / p`.
  `GridLayout.RowCountIsCeiling` proves that this equals the ceiling of the
  exact quotient.
- JavaScript's `%` and `Math.floor(/)` are applied to non-negative indices
  only. On those they agree with Dafny's `%` and `/`.
- `width` and `height` are exact reals. The scale 48/256 = 3/16 is a dyadic
  fraction, and a double computes `rawWidth * 0.1875` exactly for every size
  that can arise here.
- Because `Generate` is a function, two runs on the same listing and files
  give the same outcome. This is the repeatability the build relies on.

## Model

| member | source | states |
|---|---|---|
| IconFilter.SvgFiles | scripts/skill-icons-index.js:22 | the filtered listing is no longer than the listing, and every kept name passes the `.svg` test |
| IconFilter.IsSvgNameByLastFour | scripts/skill-icons-index.js:22 | a name passes exactly when its last four characters are `.`, `s`/`S`, `v`/`V`, `g`/`G` (case-insensitive extension test) |
| IconFilter.SvgFilesIsSubsequence | scripts/skill-icons-index.js:22 | the kept names are a subsequence of the listing, so their relative order is the listing order |
| IconFilter.SvgFilesKeepsExactly | scripts/skill-icons-index.js:22 | every `.svg` name is kept exactly as often as the listing holds it; no other name is kept |
| IconFilter.SvgFilesAppend | scripts/skill-icons-index.js:22 | filtering distributes over concatenation of listings (the filter is order-preserving and entry-local) |
| IconFilter.SvgFilesIdempotent | scripts/skill-icons-index.js:22 | filtering an already filtered listing changes nothing |
| IconFilter.SvgFilesEmpty | scripts/skill-icons-index.js:22-27 | the filtered list is empty exactly when no entry of the listing passes the test (the early-return condition) |
| IconFilter.SvgFilesExample | scripts/skill-icons-index.js:22 | `react.svg` and `Vue.SVG` are kept; `README.md` and a bare `svg` are dropped |
| IconFilter.LowerCase | scripts/skill-icons-index.js:22 | lower-casing keeps the length, turns each ASCII upper-case letter into its lower-case letter and keeps every other character, so no upper-case ASCII letter is left |
| GridLayout.RowCount | scripts/skill-icons-index.js:41 | the row count is the least number of p-wide rows that holds n icons (`rows * p >= n > (rows - 1) * p`, and 0 rows for 0 icons) |
| GridLayout.RowCountIsCeiling | scripts/skill-icons-index.js:40-41 | the integer row count equals `Math.ceil(n / p)` over exact reals |
| GridLayout.ColumnCount | scripts/skill-icons-index.js:39 | the used columns are `min(n, p)`: no more than p and no more than n |
| GridLayout.RawWidth | scripts/skill-icons-index.js:38-39 | `rawWidth + 44 == min(n, p) * 300` |
| GridLayout.RawWidthCases | scripts/skill-icons-index.js:38-39 | the width switches at `n == p`: it is `n*300 - 44` for `n <= p` and `p*300 - 44` for `n > p` |
| GridLayout.RawHeight | scripts/skill-icons-index.js:40-41 | `rawHeight + 44 == ceil(n / p) * 300` |
| GridLayout.RawSizeAtLeastOneCell | scripts/skill-icons-index.js:39-41 | for at least one icon both raw dimensions are at least 256 |
| GridLayout.LastRowOccupancy | scripts/skill-icons-index.js:41 | the last row holds between 1 and p icons; empty trailing cells occur only there |
| GridLayout.Scale | scripts/skill-icons-index.js:43-44 | the scale `48 / (300 - 44)` is exactly 3/16 |
| GridLayout.ComputeLayout | scripts/skill-icons-index.js:34-47 | the layout carries `rawWidth`, `rawHeight`, and displayed sizes with `16 * width == 3 * rawWidth` and `16 * height == 3 * rawHeight` |
| GridLayout.FifteenIconsExample | scripts/skill-icons-index.js:34-47 | 15 icons give a 4456 × 256 viewBox displayed at 835.5 × 48 |
| GridLayout.SixteenIconsExample | scripts/skill-icons-index.js:34-47 | 16 icons give a 4456 × 556 viewBox; the displayed height is 104.25 |
| GridPlacement.CellOf | scripts/skill-icons-index.js:54-55 | icon i gets a column below p and a row such that `i == row * p + col` |
| GridPlacement.CellOfUnique | scripts/skill-icons-index.js:54-55 | that column and row are the only pair with `col < p` and `row * p + col == i` |
| GridPlacement.CellOffset | scripts/skill-icons-index.js:56-57 | a cell's translation is non-negative, a multiple of 300 on each axis, and divided by 300 gives back the cell's column and row |
| GridPlacement.OffsetOf | scripts/skill-icons-index.js:54-57 | icon i is translated to `((i % p) * 300, (i / p) * 300)` |
| GridPlacement.IndexAtOffsetOf | scripts/skill-icons-index.js:54-57 | the icon index can be read back from its translation, `(y / 300) * p + x / 300 == i` |
| GridPlacement.OffsetOfInjective | scripts/skill-icons-index.js:54-57 | distinct icons get distinct translations |
| GridPlacement.CellInGrid | scripts/skill-icons-index.js:39-41 | of n icons, each one's column is below `min(n, p)` and its row below `ceil(n / p)` |
| GridPlacement.OffsetInViewBox | scripts/skill-icons-index.js:39-57 | each placed icon's 256 × 256 visible area lies inside the viewBox: `x + 256 <= rawWidth` and `y + 256 <= rawHeight` |
| GridPlacement.ViewBoxIsTight | scripts/skill-icons-index.js:39-57 | the viewBox is no larger than needed: one icon touches its right edge and the last icon touches its bottom edge |
| GridPlacement.VisibleAreasDisjoint | scripts/skill-icons-index.js:54-57 | the visible areas of two distinct icons do not overlap |
| GridPlacement.CellsRowMajor | scripts/skill-icons-index.js:53-55 | a later icon is on a later row, or on the same row further right |
| GridPlacement.OffsetsRowMajor | scripts/skill-icons-index.js:53-57 | translations grow in reading order with the icon index |
| GridPlacement.WrapExample | scripts/skill-icons-index.js:54-57 | with 15 per row, icons 0, 14 and 15 sit at (0, 0), (4200, 0) and (0, 300) |
| SvgDocument.HeaderFor | scripts/skill-icons-index.js:52 | the header's viewBox is `0 0 rawWidth rawHeight`, and its width and height are the displayed sizes |
| SvgDocument.WrapIcon | scripts/skill-icons-index.js:53-62 | a group holds the icon's markup unchanged, at that icon's translation |
| SvgDocument.Groups | scripts/skill-icons-index.js:53-63 | there is one group per icon, group k wrapping icon k |
| SvgDocument.Render | scripts/skill-icons-index.js:51-64 | the groups carry exactly the input icons in input order; the viewBox is `(0, 0, rawWidth, rawHeight)` for that icon count; the displayed size is 3/16 of it |
| SvgDocument.RenderWellPlaced | scripts/skill-icons-index.js:50-64 | in every rendered document, all groups lie inside the viewBox and are listed in reading order |
| SvgDocument.WellPlacedDistinct | scripts/skill-icons-index.js:53-57 | in a well-placed document no two groups share a translation |
| SvgDocument.RenderGroupAt | scripts/skill-icons-index.js:53-62 | group k of the document is `translate((k % p) * 300, (k / p) * 300)` around icon k |
| SvgDocument.RenderGroupsAppend | scripts/skill-icons-index.js:53-63 | appending icons does not move or change the groups of the earlier icons |
| SkillIcons.ReadIcons | scripts/skill-icons-index.js:29-31 | reading succeeds exactly when every name is readable, and then yields each file's text in order; otherwise it fails on the first unreadable name |
| SkillIcons.Generate | scripts/skill-icons-index.js:17-64 | a missing directory, an empty `.svg` selection, an unreadable icon and a written document each occur exactly under their condition; a document is produced only when every selected file is readable |
| SkillIcons.GeneratedDocument | scripts/skill-icons-index.js:22-64 | a produced document has at least one group and one group per selected file, each holding that file's text in listing order; its viewBox is sized for that count, its displayed width and height are 3/16 of the viewBox, group k sits at `((k % 15) * 300, (k / 15) * 300)`, and the document is well placed |

## Left out

- File-system work (checking the icons directory exists, listing it, reading and writing files, creating the output directory). The listing is an input, `None` when the directory is missing, and the readable files are a map from name to text. Writing the document is not modelled.
- Console messages and `process.exit(1)`. These are side effects; the model's `Outcome` names how each run ends instead.
- Path resolution against the script's directory. This is a host-library call.
- Turning `width` and `height` into attribute text. JavaScript's number-to-string formatting is not modelled; the values are kept as exact reals.
- The text of the template. The whitespace, the `.trim()`, and the fixed root attributes `fill="none"`, the two `xmlns` declarations and `version="1.1"` are not modelled, because the output is modelled as a header plus groups and not as a string.
- IconFilter.LowerCase: lower-cases ASCII letters only, whereas `toLowerCase` applies Unicode case mapping, so the two differ on names with non-ASCII letters. They agree on the `.svg` test for every name: the only non-ASCII characters that lower-case to ASCII are the Kelvin sign (to `k`) and the dotted capital I (to `i` plus a combining dot), and neither yields `.`, `s`, `v` or `g`.
