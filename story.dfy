/**
 * The story data shared by src/main.cpp and src/main_broken.cpp: choices,
 * scenes and chapters, the input events the games react to, the numbered
 * labels both files build with `std::to_string(i + 1) + ". "`, and the
 * frames a game presents.
 */
module Story {
  import opened TextLayout

  /** `struct Choice`: a text and the position of the scene it leads to. */
  datatype Choice = Choice(text: string, nextSceneID: int)

  /** `SDL_Color`: four channels, each 0..255. */
  datatype Color = Color(r: int, g: int, b: int, a: int)

  /** `struct Scene`. */
  datatype Scene = Scene(id: int, dialogue: string, choices: seq<Choice>, bgColor: Color, imagePath: string)

  /** `struct Chapter`. */
  datatype Chapter = Chapter(title: string, scenes: seq<Scene>, themeMusicPath: string)

  /** The keys the games distinguish: SDLK_1, SDLK_2 and any other. */
  datatype Key = Key1 | Key2 | OtherKey

  /** The events the games distinguish: SDL_QUIT, SDL_KEYDOWN and any other. */
  datatype Event = Quit | KeyDown(key: Key) | OtherEvent

  /** `SDL_SetRenderDrawColor(renderer, 0, 0, 0, 255)`. */
  const Black: Color := Color(0, 0, 0, 255)

  /**
   * One `SDL_RenderPresent`: the clear colour, the image drawn (empty when
   * none), and the lines of each `renderText` call in drawing order.
   */
  datatype Frame = Frame(background: Color, image: string, blocks: seq<seq<Placed>>)

  /** `k` presentations of the same frame. */
  function Repeat(f: Frame, k: nat): (r: seq<Frame>)
    ensures |r| == k && forall i :: 0 <= i < k ==> r[i] == f
  {
    if k == 0 then [] else Repeat(f, k - 1) + [f]
  }

  // ---------------------------------------------------------------------
  // std::to_string on a non-negative value

  predicate IsDigit(c: char) {
    '0' <= c <= '9'
  }

  function DigitChar(d: nat): (c: char)
    requires d < 10
    ensures IsDigit(c) && c as int - '0' as int == d
  {
    ('0' as int + d) as char
  }

  /** The decimal digits of `n`, most significant first, with no leading zero. */
  function NatToString(n: nat): (s: string)
    ensures s != [] && forall i :: 0 <= i < |s| ==> IsDigit(s[i])
    ensures |s| > 1 ==> s[0] != '0'
  {
    if n < 10 then [DigitChar(n)] else NatToString(n / 10) + [DigitChar(n % 10)]
  }

  /** The value of a string of decimal digits. */
  function ParseNat(s: string): nat
    requires forall i :: 0 <= i < |s| ==> IsDigit(s[i])
  {
    if s == [] then 0
    else
      assert IsDigit(s[|s| - 1]);
      10 * ParseNat(s[..|s| - 1]) + (s[|s| - 1] as int - '0' as int)
  }

  /** Reading back the digits `std::to_string` wrote gives the number. */
  lemma {:induction false} ParseNatToString(n: nat)
    ensures ParseNat(NatToString(n)) == n
    decreases n
  {
    var s := NatToString(n);
    if n >= 10 {
      ParseNatToString(n / 10);
      assert s[..|s| - 1] == NatToString(n / 10);
    }
  }

  /** `std::to_string(i + 1) + ". " + text`: the i-th choice or chapter, counted from 1. */
  function Numbered(i: nat, text: string): string {
    NatToString(i + 1) + ". " + text
  }

  /** A numbered text starts with a digit, so it is never blank and never starts a new line. */
  lemma NumberedStart(i: nat, text: string)
    ensures Numbered(i, text) != [] && IsDigit(Numbered(i, text)[0])
    ensures !IsSpace(Numbered(i, text)[0])
    ensures '\n' !in text ==> '\n' !in Numbered(i, text)
    ensures Numbered(i, text)[|Numbered(i, text)| - 1] != '\n' || (text != [] && text[|text| - 1] == '\n')
  {
    var s := Numbered(i, text);
    var d := NatToString(i + 1);
    assert s[0] == d[0];
    if '\n' !in text {
      forall k | 0 <= k < |s| ensures s[k] != '\n' {
        if k < |d| {
          assert s[k] == d[k];
        } else if k < |d| + 2 {
          assert s[k] == ". "[k - |d|];
        } else {
          assert s[k] == text[k - |d| - 2];
        }
      }
    }
    if text == [] {
      assert s[|s| - 1] == ' ';
    } else {
      assert s[|s| - 1] == text[|text| - 1];
    }
  }
}
