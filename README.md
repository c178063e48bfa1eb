# AadhaarVision scanner core, modelled in Dafny

AadhaarVision watches a camera feed for an identity card. In each frame it
looks for the largest quadrilateral outline and orders its four corners. It
then warps that region to a top-down view. When the operator presses `s`, it
saves the view, runs OCR on it, and prints the name, date of birth and age,
gender and Aadhaar number that it finds.

Most of the program calls OpenCV and EasyOCR. This project models the parts
the repository itself decides:

- **Corner ordering** (`utils.reorder`), in module `Corners`. The four corners
  go to the slots top-left, top-right, bottom-left, bottom-right. They are
  chosen by numpy's first-index `argmin`/`argmax` of `x + y` and of `y - x`.
  The result is a `Result`: reshaping to four points raises when the input
  does not hold exactly four points.
- **Document selection** (`utils.biggestContour`), in module `Contours`. The
  loop keeps the strictly largest contour whose area exceeds 5000 and whose
  approximation has 4 vertices. Each contour is a pair: its area (a `real`,
  as `cv2.contourArea` returns a float) and its approximated vertex list.
  `DetectDocument` adds the caller's step at main.py:67-69: reorder the
  corners only when a quadrilateral was found.
- **The fixed patterns** of the extraction, in module `Patterns`: the date of
  birth `\d{2}[\/\-]\d{2}[\/\-]\d{4}`, the slash-only date, the gender words
  (case-insensitive), and the 4-4-4 Aadhaar number. Each pattern is a
  dedicated matcher. The module also models `re.findall`, `re.search` and
  `str.strip` over these matchers.
- **Dates** (module `Dates`): `strptime(text, "%d/%m/%Y")` reads the day
  first, then the month, then the year; module `Dates` also has the age
  formula of main.py:154.
- **Extraction and reporting** (main.py:126-169), in module `Extraction`.
  This covers the loop that collects the four match lists, the name-length
  filter, and the date-of-birth check. It also covers "first match wins" for
  gender and number and the `found` flag that decides the failure message.
  The scan counter is a small class `Session`.

The current date and the OCR output are parameters. The OCR output is the
list of recognised texts.

An impossible slash date such as `31/02/2000` makes `strptime` raise
`ValueError`. Nothing catches it, so the program stops after printing the
names. The model returns this as `Outcome.crashed`, with the name lines
printed before it. The failure message of main.py:167 is printed only when
the program did not stop and nothing was found.

## Model

| member | source | states |
|---|---|---|
| `Corners.ArgMin` | utils.py:70 | the index returned is the first index at which the key sequence takes its minimum |
| `Corners.ArgMax` | utils.py:71 | the index returned is the first index at which the key sequence takes its maximum |
| `Corners.FirstMinUnique` | utils.py:70 | the first index of a minimum is unique, so `argmin` is fully determined |
| `Corners.FirstMaxUnique` | utils.py:71 | the first index of a maximum is unique, so `argmax` is fully determined |
| `Corners.Reorder` | utils.py:60-76 | fails (as the reshape raises) exactly when the input does not have four points; otherwise slot 0 holds the first point of least `x+y`, slot 1 the first of least `y-x`, slot 2 the first of largest `y-x`, slot 3 the first of largest `x+y` |
| `Corners.ReorderSlots` | utils.py:68-75 | every slot holds an input point; slots 0 and 3 bound `x+y` and slots 1 and 2 bound `y-x` over all input points |
| `Corners.StrictMinIsPicked` | utils.py:70-74 | a point whose key is strictly below that of every other distinct point fills the `argmin` slot, wherever it stands in the list |
| `Corners.StrictMaxIsPicked` | utils.py:71-75 | a point whose key is strictly above that of every other distinct point fills the `argmax` slot, wherever it stands in the list |
| `Corners.RectangleTopLeft` | utils.py:68-70 | among the corners of an upright rectangle, slot 0 receives [0,0] |
| `Corners.RectangleTopRight` | utils.py:73-74 | among the corners of an upright rectangle, slot 1 receives [w,0] |
| `Corners.RectangleBottomLeft` | utils.py:73-75 | among the corners of an upright rectangle, slot 2 receives [0,h] |
| `Corners.RectangleBottomRight` | utils.py:68-71 | among the corners of an upright rectangle, slot 3 receives [w,h] |
| `Corners.ReorderRectangle` | utils.py:67-75 | the corners of an upright w by h rectangle, in any order, are put in the order [0,0],[w,0],[0,h],[w,h] of the perspective target at main.py:75 |
| `Corners.ReorderMayRepeatAPoint` | utils.py:70-75 | the slots are not a permutation of the input: a concrete quadrilateral whose point (0,5) fills two slots while (30,30) fills none |
| `Contours.BiggestContour` | utils.py:79-94 | with no contour of area above 5000 and 4 vertices the result is empty with area 0; otherwise it is the approximation and area of a qualifying contour that no qualifying contour exceeds and that every earlier qualifying contour is strictly smaller than |
| `Contours.FirstLargestUnique` | utils.py:91 | at most one contour satisfies the selection rule, so the result is determined |
| `Contours.DetectDocument` | main.py:67-69 | corners are produced exactly when some contour qualifies, and they are the reordered corners of the selected contour |
| `Patterns.MatchLen` | main.py:117-123 | a match found at a position lies within the text and has the shape of its pattern; the gender and Aadhaar cases go through the matchers `GenderMatchLen` (alternatives tried in order) and `AadhaarMatchLen` (greedy `\s?`), and `MatchLenComplete` gives the converse |
| `Patterns.GenderComplete` | main.py:120 | a case-insensitive `Male`, `Female` or `Transgender` at a position is matched there with its full length |
| `Patterns.AadhaarGroupingMatched` | main.py:123 | twelve digits in groups of four, with the given optional whitespace between groups, are matched with their full length |
| `Patterns.AadhaarComplete` | main.py:123 | any text of the Aadhaar number shape at a position is matched there with its full length |
| `Patterns.MatchLenComplete` | main.py:117-123 | whenever the text at a position has the whole shape of a pattern, the matcher finds a match of exactly that length |
| `Patterns.AadhaarShapeOfMatch` | main.py:123 | the greedy match of `\d{4}\s?\d{4}\s?\d{4}` is twelve digits in groups of four with at most one whitespace character between groups |
| `Patterns.FindAllFrom` | main.py:129-132 | every string `findall` returns has the shape of the pattern |
| `Patterns.FindAll` | main.py:129-132 | every string `findall` returns has the shape of the pattern |
| `Patterns.FindAllFromEmpty` | main.py:129-132 | `findall` returns nothing exactly when no position of the text starts a match |
| `Patterns.FindAllFromFirst` | main.py:129-132 | the first result of `findall` is the match at the leftmost position that starts one |
| `Patterns.FindAllFindsShape` | main.py:129-132 | a text holding the shape of a pattern anywhere makes `findall` return a non-empty list |
| `Patterns.SearchFrom` | main.py:149 | what `search` finds has the shape of the pattern |
| `Patterns.Search` | main.py:149 | what `search` finds has the shape of the pattern |
| `Patterns.SearchIsFirstFound` | main.py:149 | `search` finds the first result of `findall`, and nothing when `findall` finds nothing |
| `Patterns.StripLeading` | main.py:148 | the result is a suffix of the text preceded only by whitespace and does not start with whitespace |
| `Patterns.StripTrailing` | main.py:148 | the result is a prefix of the text followed only by whitespace and does not end with whitespace |
| `Patterns.Strip` | main.py:148 | the result is the part of the text between whitespace at both ends, and neither starts nor ends with whitespace |
| `Patterns.StripKeeps` | main.py:148 | a text that neither starts nor ends with whitespace is unchanged by `strip` |
| `Patterns.SlashCheckOfDobMatch` | main.py:148-150 | on a match of the date-of-birth pattern, the slash search finds the whole match when both separators are slashes and nothing when one is a hyphen |
| `Dates.DigitChar` | main.py:152 | the digit character written for a value below 10 reads back as that value |
| `Dates.ZeroPadded` | main.py:152 | a number written at a fixed width has that many characters, all digits |
| `Dates.DecimalOfZeroPadded` | main.py:152 | reading back a zero-padded number gives the number, when it fits the width |
| `Dates.ZeroPaddedOfDecimal` | main.py:152 | a digit string's value is below 10 to its length, and writing it back at that width gives the string |
| `Dates.ParseDayFirst` | main.py:151-152 | parsing succeeds exactly when day, month and year (read in that order) name a valid date; the date read back in `dd/mm/yyyy` form is the text parsed |
| `Dates.FormatDayFirst` | main.py:152 | the date written in the form the format string reads has the `dd/mm/yyyy` shape |
| `Dates.FormatOfFields` | main.py:152 | a text that parses is the date it parses to, written back |
| `Dates.ParseFormatRoundTrip` | main.py:152 | every valid date, written `dd/mm/yyyy`, parses back to itself |
| `Dates.Age` | main.py:154 | the age is the difference of the years, or one less; on the birthday itself it is the difference of the years |
| `Dates.AgeCountsBirthdays` | main.py:154 | the age is the number of birthdays reached: that birthday is on or before today and the next one is after today |
| `Dates.AgeIsUnique` | main.py:154 | any count of birthdays with that property equals the age |
| `Dates.AgeNonNegative` | main.py:154 | the age is non-negative whenever today is on or after the date of birth |
| `Dates.AgeMonotone` | main.py:154 | the age never decreases as today moves later |
| `Extraction.FlattenEmpty` | main.py:126-132 | the extended list is empty exactly when every text contributed nothing |
| `Extraction.FlattenFirst` | main.py:126-132 | the head of the extended list is the first match of the first text that has a match |
| `Extraction.FlattenMember` | main.py:126-132 | every collected match comes from one text's matches |
| `Extraction.Accumulate` | main.py:126-132 | the four lists are the concatenations, in OCR order, of each text's name, date, gender and number matches |
| `Extraction.CollectedDobShape` | main.py:117 | every collected date of birth has the `dd?mm?yyyy` shape with slash or hyphen separators |
| `Extraction.FirstGenderFound` | main.py:160-161 | the gender printed is the leftmost gender word of the first text containing one |
| `Extraction.FirstAadhaarFound` | main.py:163-164 | the number printed is the leftmost number match of the first text containing one |
| `Extraction.ShapeInSomeTextIsCollected` | main.py:126-132 | a recognised text holding a whole gender word, date or number makes that field's collected list non-empty |
| `Extraction.RemoveSpaces` | main.py:139 | removing spaces leaves no space and keeps every other character |
| `Extraction.RemoveSpacesLength` | main.py:139 | the length without spaces is the length minus the number of space characters |
| `Extraction.LongNames` | main.py:138-142 | a name is kept exactly when it is one of the matches and has more than 10 non-space characters |
| `Extraction.LongNamesAppend` | main.py:138-142 | the filter works piece by piece, keeping order and repeats |
| `Extraction.LongNamesEmpty` | main.py:138-142 | no name is printed exactly when no match has more than 10 non-space characters |
| `Extraction.PrintLongNames` | main.py:136-142 | the loop prints the long names in order and sets `found` exactly when one exists |
| `Extraction.NextLongNames` | main.py:138-142 | one more name match is printed after the earlier ones exactly when it is long enough |
| `Extraction.PrintDob` | main.py:146-159 | the branch stops the program exactly on a slash date naming no date, sets `found` exactly on a valid one, and prints that branch's lines |
| `Extraction.CheckDob` | main.py:146-159 | the branch does nothing exactly when there is no date match |
| `Extraction.CheckFirstDob` | main.py:148-159 | the first match gives "No valid DOB found" exactly when the slash search of its stripped text finds nothing; otherwise the slash date found gives its age when it names a valid date, and a stop when it names none |
| `Extraction.Assemble` | main.py:134-167 | the name lines come first; the program stops exactly on a slash date that names no date, and then prints nothing else |
| `Extraction.Report` | main.py:134-167 | the output starts with the long names, in order |
| `Extraction.CheckDobOfMatch` | main.py:146-159 | on a pattern match, a hyphen gives "No valid DOB found"; a slash date is read day first and gives its age, or stops the program when it names no date |
| `Extraction.CollectedDobCheck` | main.py:146-159 | the first collected date of birth has the date shape, and a hyphen in it gives "No valid DOB found" |
| `Extraction.CheckDobUsesFirstOnly` | main.py:148 | matches after the first never influence the date-of-birth branch |
| `Extraction.ReportFields` | main.py:134-167 | the printed lines and the stop are exactly the report of the four match lists |
| `Extraction.NameLinesMember` | main.py:138-142 | a name line is printed exactly for the names given |
| `Extraction.FieldLinesMember` | main.py:146-167 | after the names come no name line, the date and its age exactly for a valid date, "No valid DOB found" exactly for a first match without the slash form, at most the first gender, at most the first number, and the failure message exactly when nothing was found |
| `Extraction.ReportNames` | main.py:138-142 | a name is printed exactly when it is a match with more than 10 non-space characters |
| `Extraction.ReportCrash` | main.py:151-152 | the program stops exactly on a slash date that names no date, after printing only the names |
| `Extraction.ReportFailureMessage` | main.py:135-167 | the failure message is printed exactly when the program did not stop and there is no long name, no valid date of birth, no gender and no number |
| `Extraction.ReportGender` | main.py:160-162 | when the program did not stop, a gender line is printed exactly when there is a gender match, and it is the first one |
| `Extraction.ReportAadhaar` | main.py:163-165 | when the program did not stop, a number line is printed exactly when there is a number match, and it is the first one |
| `Extraction.ReportAge` | main.py:150-157 | an age is printed exactly when the first date match is a valid slash date, and it is that date's age |
| `Extraction.ReportDob` | main.py:149-155 | a date is printed exactly when the first date match is a valid slash date, and it is the slash text found |
| `Extraction.ReportNoValidDob` | main.py:146-159 | "No valid DOB found" is printed exactly when the stripped first date match holds no slash date |
| `Extraction.Session.constructor` | main.py:22 | the scan counter starts at 0 |
| `Extraction.Session.Scan` | main.py:101-169 | the image is saved under the current count, the output is the report of the collected matches, and the count goes up unless the program stopped |

## Left out

- Camera and file I/O: `cap.read`, `imread`, `imwrite` and the saved JPEG. The model keeps only the index the image is saved under.
- The windows, `waitKey` key handling, the trackbars (`initializeTrackbars`, `valTrackbars`, `nothing`), and the `detection` flag that allows a scan. These are user interface.
- `stackImages` and `drawRectangle`. They only draw and stack images for display.
- The OpenCV image processing: grayscale, blur, Canny, dilate and erode, `findContours`, adaptive threshold and median blur. It is library code.
- `cv2.contourArea`, `cv2.arcLength` and `cv2.approxPolyDP` (with its float tolerance `0.02*peri`). Their results are given per contour.
- `getPerspectiveTransform` and `warpPerspective`. This is floating-point linear algebra inside the library.
- The EasyOCR engine. Its texts are inputs; bounding boxes and confidences are dropped, because the block never reads them.
- The name pattern of main.py:111. It is a general regular expression, so its per-text matches are the parameter `findNames`.
- `datetime.today()`. The current date is a parameter.
- The exact console text of each printed line (labels, spacing, emoji). Lines are values of the datatype `Line`.
- Corners.Reorder: coordinates are unbounded integers. numpy's int32 arithmetic could wrap in `np.diff`, but only for coordinates far outside a 1000 by 650 image.
- Patterns.MatchLen: digits are ASCII `0`-`9`, whitespace is ` \t\n\r\v\f`, and case folding is ASCII. Python's `\s` also counts `\x1c`-`\x1f` and non-ASCII whitespace, `\d` also accepts non-ASCII digits, and its case-insensitive matching also folds letters such as U+017F to `s`.
- Patterns.Strip: removes ` \t\n\r\v\f` only; `str.strip()` also removes `\x1c`-`\x1f` and non-ASCII whitespace.
- Dates.ParseDayFirst: models `strptime` only on ten-character `dd/mm/yyyy` digit texts. These are the only texts main.py:151-152 passes it.
