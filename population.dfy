/**
 * Synthetic population (`calculate_people_in_apartment`,
 * `calculate_total_people_in_house`, `add_population_column_to_houses`).
 * The normal draws are not computed: a `Sampler` supplies the k-th draw of
 * a house, whatever the random generator returned.
 */
module Population {

  /** The k-th normal draw made for one house. */
  type Sampler = nat -> real

  /** `int(x)` on a float: the integer part, rounding toward zero. */
  function Truncate(x: real): (n: int)
    ensures x >= 0.0 ==> n as real <= x < n as real + 1.0
    ensures x < 0.0 ==> n as real - 1.0 < x <= n as real
  {
    if x >= 0.0 then x.Floor else -((-x).Floor)
  }

  /** `calculate_people_in_apartment`: the truncated draw, clamped to 1..4. */
  function PeopleInApartment(sample: real): (people: int)
    ensures 1 <= people <= 4
    ensures 1 <= Truncate(sample) <= 4 ==> people == Truncate(sample)
    ensures Truncate(sample) < 1 ==> people == 1
    ensures Truncate(sample) > 4 ==> people == 4
  {
    var people := Truncate(sample);
    if people < 1 then 1 else if people > 4 then 4 else people
  }

  /** The apartment count a house is populated with: a recorded 0 counts as 5 apartments. */
  function EffectiveApartments(apartments: int): int {
    if apartments == 0 then 5 else apartments
  }

  /** The people of the first n apartments of a house. */
  function SumPeople(draw: Sampler, n: nat): (total: int)
    ensures n <= total <= 4 * n
  {
    if n == 0 then 0 else SumPeople(draw, n - 1) + PeopleInApartment(draw(n - 1))
  }

  /**
   * `calculate_total_people_in_house`: one clamped draw per apartment,
   * summed; a negative apartment count gives an empty range and no people.
   */
  function TotalPeopleInHouse(apartments: real, draw: Sampler): (total: int)
    ensures var a := EffectiveApartments(Truncate(apartments));
      && (a > 0 ==> a <= total <= 4 * a)
      && (a <= 0 ==> total == 0)
    ensures Truncate(apartments) == 0 ==> 5 <= total <= 20
  {
    var a := EffectiveApartments(Truncate(apartments));
    if a <= 0 then 0 else SumPeople(draw, a)
  }

  /** When every draw truncates to the same count k in 1..4, each apartment holds exactly k people. */
  lemma {:induction false} UniformDraws(draw: Sampler, n: nat, k: int)
    requires 1 <= k <= 4
    requires forall j :: 0 <= j < n ==> Truncate(draw(j)) == k
    ensures SumPeople(draw, n) == k * n
  {
    if n > 0 {
      UniformDraws(draw, n - 1, k);
    }
  }

  /**
   * `add_population_column_to_houses`: the `Total_People` column, one
   * house at a time, each house with its own draws.
   */
  function PopulateHouses(apartments: seq<real>, draws: nat -> Sampler): (totals: seq<int>)
    ensures |totals| == |apartments|
    ensures forall i :: 0 <= i < |apartments| ==> totals[i] >= 0
    ensures forall i :: 0 <= i < |apartments| && EffectiveApartments(Truncate(apartments[i])) > 0 ==>
      EffectiveApartments(Truncate(apartments[i])) <= totals[i] <= 4 * EffectiveApartments(Truncate(apartments[i]))
  {
    var totals := seq(|apartments|, i requires 0 <= i < |apartments| => TotalPeopleInHouse(apartments[i], draws(i)));
    assert forall i :: 0 <= i < |apartments| ==> totals[i] == TotalPeopleInHouse(apartments[i], draws(i));
    totals
  }
}
