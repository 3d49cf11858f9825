/** Stars: a vector with a catalogue label and a magnitude (star.cpp). */
module Stars {
  import opened Libm
  import opened Vectors

  const NO_LABEL := 0
  const NO_MAGNITUDE := -30.0

  datatype Star = Star(vector: Vector3, labelId: int, magnitude: real)

  function Wrap(v: Vector3, labelId: int := NO_LABEL, magnitude: real := NO_MAGNITUDE): Star {
    Star(v, labelId, magnitude)
  }

  function DefineLabel(s: Star, labelId: int): Star {
    Star(s.vector, labelId, s.magnitude)
  }

  function ResetLabel(s: Star): Star {
    DefineLabel(s, NO_LABEL)
  }

  /** The angle of separation in degrees. */
  function Separation(lib: Libm, a: Vector3, b: Vector3): real {
    lib.DegreesPerRadian * Angle(lib, a, b)
  }

  predicate WithinAngle(lib: Libm, a: Vector3, b: Vector3, theta: real) {
    Separation(lib, a, b) < theta
  }

  /** Whether every two stars of a list are within `theta` of each other. One loop steps
      through the pairs (i, j): when `j` reaches the end, `i` advances and `j` restarts. */
  method WithinAngleOfEachOther(lib: Libm, s: seq<Star>, theta: real) returns (within: bool)
    ensures within <==> forall i, j :: 0 <= i < j < |s| ==> Separation(lib, s[i].vector, s[j].vector) < theta
  {
    if |s| < 2 {
      return true;
    }
    var i, j := 0, 1;
    while i < |s| - 1
      invariant 0 <= i < |s|
      invariant i < |s| - 1 ==> i < j < |s|
      invariant forall a, b :: 0 <= a < i && a < b < |s| ==> WithinAngle(lib, s[a].vector, s[b].vector, theta)
      invariant forall b :: i < b < j && b < |s| ==> WithinAngle(lib, s[i].vector, s[b].vector, theta)
      decreases |s| - i, |s| - j
    {
      if !WithinAngle(lib, s[i].vector, s[j].vector, theta) {
        return false;
      }
      if j < |s| - 1 {
        j := j + 1;
      } else {
        i := i + 1;
        j := 1 + i;
      }
    }
    return true;
  }

  lemma WithinAngleSymmetric(lib: Libm, a: Vector3, b: Vector3, theta: real)
    ensures Separation(lib, a, b) == Separation(lib, b, a)
    ensures WithinAngle(lib, a, b, theta) <==> WithinAngle(lib, b, a, theta)
  {
    AngleSymmetric(lib, a, b);
  }

  /** Stars within an angle of each other, in numbers: the arc cosine in degrees is below it. */
  lemma SeparationInDegrees(lib: Libm, a: Vector3, b: Vector3, m: real, theta: real)
    requires lib.Sound() && a != ZERO && b != ZERO && m == Magnitude(lib, a) * Magnitude(lib, b)
    ensures m != 0.0
    ensures Separation(lib, a, b) == lib.DegreesPerRadian * lib.Acos(Dot(a, b) / m)
    ensures WithinAngle(lib, a, b, theta) <==> lib.DegreesPerRadian * lib.Acos(Dot(a, b) / m) < theta
  {
    hide Angle;
    AngleIsArcCosine(lib, a, b, m);
  }
}
