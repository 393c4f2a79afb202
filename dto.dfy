/** The transfer objects the backend reads from and writes to JSON. */
module Dto {
  import opened Wrappers

  /** `role` is the role's name; `password` travels only towards the server. */
  datatype UserDto = UserDto(
    id: Option<int>, username: Option<string>, firstName: Option<string>, lastName: Option<string>,
    email: Option<string>, role: Option<string>, photoUrl: Option<string>,
    password: Option<string>, createdAt: Option<int>)

  datatype CategoryDto = CategoryDto(
    id: Option<int>, name: Option<string>, description: Option<string>, photoUrl: Option<string>)

  datatype IngredientDto = IngredientDto(
    recipeId: Option<int>, productId: Option<int>, productName: Option<string>,
    quantity: Option<real>, unit: Option<string>)

  datatype RecipeDto = RecipeDto(
    id: Option<int>, title: Option<string>, description: Option<string>, text: Option<string>,
    photoUrl: Option<string>, cookingTime: Option<int>, prepTime: Option<int>, cookTime: Option<int>,
    calories: Option<real>, totalFat: Option<real>, protein: Option<real>,
    carbohydrates: Option<real>, cholesterol: Option<real>,
    status: Option<string>, createdAt: Option<int>, updatedAt: Option<int>,
    userDto: Option<UserDto>,
    categoriesDto: Option<seq<CategoryDto>>,
    ingredientsDto: Option<seq<IngredientDto>>)

  datatype BlogDto = BlogDto(
    id: Option<int>, title: Option<string>, description: Option<string>, text: Option<string>,
    photoUrl: Option<string>, cookingTime: Option<int>, status: Option<string>,
    createdAt: Option<int>, updatedAt: Option<int>, userDto: Option<UserDto>)

  datatype LoginRequest = LoginRequest(username: Option<string>, password: Option<string>)

  datatype LoginResponse = LoginResponse(success: bool, message: string, user: Option<UserDto>)
}
