# Recipe site: pagination window and registration-form rules

This project models the two pieces of logic in a Django recipe-publishing
site that do not come from the framework:

- **The pagination window** (`make_pagination_range`, result key
  `'pagination'`). From the page list `1..N`, a window size `qty` and the
  current page it picks `qty` consecutive page numbers. The current page sits
  at position `qty / 2` of the window. The window is anchored to page 1 when
  centring would run off the first page, and to page N when it would run off
  the last page. A current page past N is clamped to the last window. The
  implementation file `ut/pagination.py` is not part of this model; its
  behaviour is fixed by the unit tests in `ut/test_pagination.py`. The model
  uses the one closed form that satisfies every asserted case (module
  `Pagination`, `pagination.dfy`).
- **The registration form helpers and validators** in `authors/forms.py`
  (module `Forms`, `forms.dfy`):
  - `add_attr` and `add_placeholder` update a field widget's attribute
    dictionary in place. They are methods over a `Widget` class whose `attrs`
    field is a `map`.
  - `strong_password` is modelled with the exact semantics of its regular
    expression under `re.match`. The `.` excludes a line break, and `$` also
    matches just before one final line break. For strings without a line
    break this means length at least 8 with a lowercase letter, an uppercase
    letter and a digit.
  - `clean_password`, `clean_email` and `clean` are modelled as functions
    that return either the cleaned value or the `ValidationError` they
    would raise.
- Two Python string operations the helpers rely on, `str.strip()` and the
  substring test `in`, are in module `Strings` (`strings.dfy`).

Centring the window as `current - qty/2 .. current + qty/2` would give
`qty + 1` pages. The tests at ut/test_pagination.py:69 and :80 assert windows
of `qty` pages with the current page second of four, so the window runs from
`current - qty/2 + 1` to `current + qty/2`.

## Model

| member | source | states |
|---|---|---|
| Pagination.WindowStart | ut/test_pagination.py:58-80 | the first page of the window always lies so that the whole window fits inside `1..N` |
| Pagination.MakePaginationRange | ut/test_pagination.py:7-125 | the window has exactly `qty` entries, is a contiguous ascending run inside `1..N`, and contains the current page whenever that page is in range |
| Pagination.WindowIsRange | ut/test_pagination.py:14-125 | the window is the slice of the page list equal to `range(lo, lo + qty)` for its first page `lo` |
| Pagination.AnchoredAtFirstPage | ut/test_pagination.py:16-34 | the window is `[1..qty]` if and only if the current page is at most `qty / 2` (or `qty == N`) |
| Pagination.AnchoredAtLastPage | ut/test_pagination.py:82-114 | the window is `[N-qty+1..N]` if and only if the current page is at least `N - qty / 2` (or `qty == N`) |
| Pagination.CentredOnCurrentPage | ut/test_pagination.py:58-80 | the current page is entry `qty / 2` of the window if and only if `qty/2 <= current <= N - qty/2` (at both ends of that range the centred window is also the anchored one), and then the window is `[current - qty/2 + 1 .. current + qty/2]` |
| Pagination.OutOfRangeClamps | ut/test_pagination.py:116-125 | a current page past N gives the same window as page N, the last window |
| Pagination.WindowMonotone | ut/test_pagination.py:36-56 | a later current page never gives a window that starts earlier |
| Pagination.WindowSlidesByOne | ut/test_pagination.py:39-80 | between the two anchors, moving one page on shifts every window entry up by one |
| Pagination.FirstPageWindow | ut/test_pagination.py:7-14 | pages 1..20, size 4, current page 1 give `[1, 2, 3, 4]` |
| Pagination.FirstWindowIsStatic | ut/test_pagination.py:16-56 | current pages 1 and 2 give `[1..4]`, page 3 gives `[2..5]`, page 4 gives `[3..6]` |
| Pagination.MiddleWindows | ut/test_pagination.py:58-80 | page 10 gives `[9..12]` and page 12 gives `[11..14]` |
| Pagination.LastWindowIsStatic | ut/test_pagination.py:82-125 | pages 19, 20 and the out-of-range 21 all give `[17..20]` |
| Strings.Strip | authors/forms.py:10 | `str.strip()` removes a whitespace-only prefix and suffix, is a slice of its input, and leaves no whitespace at either end |
| Strings.StripIdempotent | authors/forms.py:10 | stripping twice is the same as stripping once |
| Strings.StripIgnoresLeadingSpace | authors/forms.py:10 | whitespace put in front of a string does not change its stripped form |
| Strings.Contains | authors/forms.py:116 | `sub in s` holds exactly when `sub` occurs at some index of `s` |
| Strings.ContainsInfix | authors/forms.py:116 | `a + sub + b` always contains `sub` |
| Forms.WithAttr | authors/forms.py:8-10 | the attribute map after `add_attr` has the old keys plus the named one, every other entry is unchanged, and the new value has no whitespace at its ends |
| Forms.AddAttr | authors/forms.py:8-10 | the widget's `attrs` becomes `WithAttr` of its old value; only that widget is modified |
| Forms.AddPlaceholder | authors/forms.py:13-14 | the same update as `add_attr` with the attribute name `placeholder` |
| Forms.WithAttrWhenAbsent | authors/forms.py:9-10 | with no previous value (missing key or `''`) the attribute becomes the new value stripped |
| Forms.WithAttrAppends | authors/forms.py:9-10 | a previous non-empty value without surrounding whitespace is kept and the new value is appended after one space |
| Forms.WithAttrTwice | authors/forms.py:8-10 | two `add_attr` calls on a fresh attribute leave the two values joined by a space |
| Forms.StrongPassword | authors/forms.py:17-27 | a rejection carries the weak-password message and code `'invalid'`; for a string without line breaks, acceptance holds if and only if it has length at least 8 and a lowercase letter, an uppercase letter and a digit |
| Forms.StrongPasswordMatchesPattern | authors/forms.py:18-20 | `strong_password` accepts exactly the strings that `re.match` of its pattern accepts, with the pattern's semantics written out (lookaheads up to the first line break, at least 8 non-break characters, `$` at the end or before a final line break) |
| Forms.CleanPassword | authors/forms.py:113-123 | the password is returned unchanged if and only if it does not contain `atenção`; otherwise the error has code `'invalid'` and parameter `value = 'atenção'` |
| Forms.CleanPasswordRejectsForbiddenWord | authors/forms.py:116-121 | whatever text surrounds `atenção`, the password is rejected |
| Forms.CleanEmail | authors/forms.py:125-134 | the e-mail (default `''`) is returned if and only if no account already uses it; otherwise the error has code `'invalid'` |
| Forms.Clean | authors/forms.py:136-152 | errors are attached to both `password` and `password2` if and only if the two cleaned values differ (a missing value counts as `None`); both get the same mismatch error with code `'invalid'` |
| Forms.CleanSymmetric | authors/forms.py:139-142 | swapping the two password values does not change the outcome of `clean` |
| Forms.CleanReportsMissingPassword | authors/forms.py:139-152 | if `password` failed its own validation and `password2` is present, `clean` also reports the mismatch |

## Left out

- The other keys of the dictionary `make_pagination_range` returns (such as a first-page flag) are not modelled. The tests shown assert only `'pagination'`.
- Pagination.MakePaginationRange requires an even window size with `2 <= qty <= N` and a current page of at least 1. Odd sizes, `qty > N`, `qty <= 0` and current pages below 1 are not exercised by the tests, and the implementation is not part of this model. A current page past N is covered.
- The Django form machinery in `authors/forms.py` is not modelled: field declarations, labels, help texts, widget classes, `Meta`, `super().__init__()` and `super().clean()`. `clean` takes the cleaned-data dictionary as its input.
- `RegisterForm.__init__` only calls `add_placeholder` on six fields. It is not modelled separately; each call adds a placeholder once to a field that has none yet, which is the case `AddPlaceholder` and `WithAttrWhenAbsent` cover.
- The username length bounds (4 to 150) are enforced by the framework's `min_length` / `max_length` and are not modelled.
- Forms.CleanEmail: the database query `User.objects.filter(email=...).exists()` is replaced by a parameter, the set of e-mails already registered.
- Forms.CleanPassword: takes the password string directly. Django calls `clean_password` only after the field itself validated, so `cleaned_data['password']` is then always present.
- Forms.Clean: Django wraps each per-field error in a list. The model maps each field to a single error.
- The regular-expression engine is not modelled. `strong_password` is an explicit character-class check, proved equal to the pattern's semantics as written out in `PatternMatches`.
- `recipes/admin.py` only registers models with the admin site and has no logic.
